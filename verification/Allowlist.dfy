/** Which client certificates may speak for which participant (src/transport.rs). */
module Allowlist {
  import opened Prelude
  import opened Strings
  import opened Identities
  import opened Messages

  /** One certificate a participant may present. */
  datatype Grant = Grant(participantId: Identity, certificate: seq<byte>)

  // The certificates of each participant, by identifier.
  type ClientAllowlist = map<Text, seq<seq<byte>>>

  function CertificatesOf(grants: seq<Grant>, id: Text): (r: seq<seq<byte>>) {
    if grants == [] then []
    else
      var last := |grants| - 1;
      CertificatesOf(grants[..last], id) + if grants[last].participantId.id == id then [grants[last].certificate] else []
  }

  function GrantedIds(grants: seq<Grant>): set<Text> {
    set g <- grants :: g.participantId.id
  }

  function Index(grants: seq<Grant>): ClientAllowlist {
    map id <- GrantedIds(grants) :: CertificatesOf(grants, id)
  }

  /** How the certificate of grant i collides with an earlier grant. */
  function ClashAt(grants: seq<Grant>, i: nat): Option<TransportError>
    requires i < |grants|
  {
    if exists j :: 0 <= j < i && grants[j].certificate == grants[i].certificate
                   && grants[j].participantId.id != grants[i].participantId.id then
      Some(CertificateAssignedToMultipleIdentities)
    else if exists j :: 0 <= j < i && grants[j].certificate == grants[i].certificate then
      Some(DuplicateAuthorizedClientCertificate)
    else None
  }

  function FirstClash(grants: seq<Grant>, n: nat): Option<TransportError>
    requires n <= |grants|
  {
    if n == 0 then None
    else if FirstClash(grants, n - 1).Some? then FirstClash(grants, n - 1)
    else ClashAt(grants, n - 1)
  }

  lemma {:induction false} FirstClashStays(grants: seq<Grant>, i: nat, n: nat)
    requires i <= n <= |grants| && FirstClash(grants, i).Some?
    ensures FirstClash(grants, n) == FirstClash(grants, i)
    decreases n
  {
    if i < n {
      FirstClashStays(grants, i, n - 1);
    }
  }

  predicate DistinctCertificates(grants: seq<Grant>) {
    forall i, j :: 0 <= i < j < |grants| ==> grants[i].certificate != grants[j].certificate
  }

  /** The owner map knows the certificates of the first n grants and who holds each. */
  ghost predicate Owned(owners: map<seq<byte>, Text>, grants: seq<Grant>, n: nat)
    requires n <= |grants|
  {
    && (forall c <- owners :: exists j :: 0 <= j < n && grants[j].certificate == c && grants[j].participantId.id == owners[c])
    && (forall j :: 0 <= j < n ==> grants[j].certificate in owners)
  }

  lemma NewCertificate(owners: map<seq<byte>, Text>, grants: seq<Grant>, i: nat)
    requires i < |grants| && Owned(owners, grants, i) && grants[i].certificate !in owners
    requires FirstClash(grants, i).None? && DistinctCertificates(grants[..i])
    ensures Owned(owners[grants[i].certificate := grants[i].participantId.id], grants, i + 1)
    ensures FirstClash(grants, i + 1).None? && DistinctCertificates(grants[..i + 1])
  {
    assert ClashAt(grants, i).None?;
    var more := grants[..i + 1];
    forall j, k | 0 <= j < k < |more| ensures more[j].certificate != more[k].certificate {
      if k < i {
        assert grants[..i][j] == grants[j] && grants[..i][k] == grants[k];
      }
    }
  }

  method BuildClientAllowlist(grants: seq<Grant>) returns (r: Result<ClientAllowlist, TransportError>)
    ensures grants == [] ==> r == Err(EmptyClientAllowlist)
    ensures grants != [] && FirstClash(grants, |grants|).Some? ==> r == Err(FirstClash(grants, |grants|).value)
    ensures grants != [] && FirstClash(grants, |grants|).None? ==> r == Ok(Index(grants))
  {
    if grants == [] {
      return Err(EmptyClientAllowlist);
    }
    var allowlist: ClientAllowlist := map[];
    var owners: map<seq<byte>, Text> := map[];
    for i := 0 to |grants|
      invariant FirstClash(grants, i).None?
      invariant DistinctCertificates(grants[..i])
      invariant allowlist == Index(grants[..i])
      invariant Owned(owners, grants, i)
    {
      var client := grants[i];
      if client.certificate in owners {
        ClashFound(grants, i, owners);
        if owners[client.certificate] != client.participantId.id {
          return Err(CertificateAssignedToMultipleIdentities);
        }
        return Err(DuplicateAuthorizedClientCertificate);
      }
      var id := client.participantId.id;
      var known := if id in allowlist then allowlist[id] else [];
      IndexOneMore(grants, i);
      NewCertificate(owners, grants, i);
      owners := owners[client.certificate := id];
      allowlist := allowlist[id := known + [client.certificate]];
    }
    assert grants[..|grants|] == grants;
    r := Ok(allowlist);
  }

  /** A certificate among the first i grants, which are distinct, belongs to one of them alone. */
  lemma CertificateTaken(grants: seq<Grant>, i: nat, j: nat)
    requires j < i < |grants| && DistinctCertificates(grants[..i]) && grants[j].certificate == grants[i].certificate
    ensures ClashAt(grants, i) == Some(if grants[j].participantId.id != grants[i].participantId.id
                                       then CertificateAssignedToMultipleIdentities
                                       else DuplicateAuthorizedClientCertificate)
  {
    forall k | 0 <= k < i && grants[k].certificate == grants[i].certificate ensures k == j {
      assert grants[..i][k].certificate == grants[..i][j].certificate;
    }
  }

  lemma ClashFound(grants: seq<Grant>, i: nat, owners: map<seq<byte>, Text>)
    requires i < |grants| && Owned(owners, grants, i) && grants[i].certificate in owners
    requires FirstClash(grants, i).None? && DistinctCertificates(grants[..i])
    ensures FirstClash(grants, |grants|) == Some(if owners[grants[i].certificate] != grants[i].participantId.id
                                                 then CertificateAssignedToMultipleIdentities
                                                 else DuplicateAuthorizedClientCertificate)
  {
    var j := HolderOf(owners, grants, i, grants[i].certificate);
    CertificateTaken(grants, i, j);
    FirstClashStands(grants, i);
  }

  lemma FirstClashStands(grants: seq<Grant>, i: nat)
    requires i < |grants| && FirstClash(grants, i).None? && ClashAt(grants, i).Some?
    ensures FirstClash(grants, |grants|) == ClashAt(grants, i)
  {
    FirstClashStays(grants, i + 1, |grants|);
  }

  lemma HolderOf(owners: map<seq<byte>, Text>, grants: seq<Grant>, n: nat, c: seq<byte>) returns (j: nat)
    requires n <= |grants| && Owned(owners, grants, n) && c in owners
    ensures j < n && grants[j].certificate == c && grants[j].participantId.id == owners[c]
  {
    j :| 0 <= j < n && grants[j].certificate == c && grants[j].participantId.id == owners[c];
  }

  lemma CertificatesOneMore(grants: seq<Grant>, i: nat, id: Text)
    requires i < |grants|
    ensures CertificatesOf(grants[..i + 1], id)
            == CertificatesOf(grants[..i], id)
               + if grants[i].participantId.id == id then [grants[i].certificate] else []
  {
    assert grants[..i + 1][..i] == grants[..i];
  }

  lemma IndexOneMore(grants: seq<Grant>, i: nat)
    requires i < |grants|
    ensures var id := grants[i].participantId.id;
            var before := Index(grants[..i]);
            Index(grants[..i + 1])
            == before[id := (if id in before then before[id] else []) + [grants[i].certificate]]
  {
    var id := grants[i].participantId.id;
    var before := Index(grants[..i]);
    var after := Index(grants[..i + 1]);
    GrantedOneMore(grants, i);
    assert after.Keys == before.Keys + {id};
    IndexAtGranted(grants, i);
    forall other <- before ensures other != id ==> after[other] == before[other] {
      CertificatesOneMore(grants, i, other);
    }
  }

  lemma IndexAtGranted(grants: seq<Grant>, i: nat)
    requires i < |grants|
    ensures var id := grants[i].participantId.id;
            var before := Index(grants[..i]);
            CertificatesOf(grants[..i + 1], id)
            == (if id in before then before[id] else []) + [grants[i].certificate]
  {
    var id := grants[i].participantId.id;
    CertificatesOneMore(grants, i, id);
    if id !in GrantedIds(grants[..i]) {
      NothingGranted(grants[..i], id);
    }
  }

  lemma GrantedOneMore(grants: seq<Grant>, i: nat)
    requires i < |grants|
    ensures GrantedIds(grants[..i + 1]) == GrantedIds(grants[..i]) + {grants[i].participantId.id}
  {
    assert grants[..i + 1] == grants[..i] + [grants[i]];
  }

  lemma {:induction false} NothingGranted(grants: seq<Grant>, id: Text)
    requires id !in GrantedIds(grants)
    ensures CertificatesOf(grants, id) == []
  {
    if grants != [] {
      var last := |grants| - 1;
      assert grants[last] in grants;
      assert forall g <- grants[..last] :: g in grants;
      NothingGranted(grants[..last], id);
    }
  }

  lemma {:induction false} NoClashIff(grants: seq<Grant>, n: nat)
    requires n <= |grants|
    ensures FirstClash(grants, n).None? <==>
              forall i, j :: 0 <= i < j < n ==> grants[i].certificate != grants[j].certificate
  {
    if n > 0 {
      NoClashIff(grants, n - 1);
    }
  }

  /** The list is accepted exactly when it is non-empty and no certificate is granted twice. */
  lemma BuildSucceedsIff(grants: seq<Grant>)
    ensures FirstClash(grants, |grants|).None? <==> DistinctCertificates(grants)
  {
    NoClashIff(grants, |grants|);
  }

  lemma {:induction false} ListedIff(grants: seq<Grant>, id: Text, certificate: seq<byte>)
    ensures certificate in CertificatesOf(grants, id) <==>
              exists g <- grants :: g.participantId.id == id && g.certificate == certificate
  {
    if grants != [] {
      var last := |grants| - 1;
      ListedIff(grants[..last], id, certificate);
      assert grants == grants[..last] + [grants[last]];
      assert forall g :: g in grants <==> g in grants[..last] || g == grants[last];
    }
  }

  predicate Accepts(allowlist: ClientAllowlist, id: Text, certificate: seq<byte>) {
    id in allowlist && certificate in allowlist[id]
  }

  /** A lookup accepts a pair exactly when it was granted, and no certificate serves two participants. */
  lemma IndexAgreesWithGrants(grants: seq<Grant>, id: Text, other: Text, certificate: seq<byte>)
    requires DistinctCertificates(grants)
    ensures Accepts(Index(grants), id, certificate) <==>
              exists g <- grants :: g.participantId.id == id && g.certificate == certificate
    ensures Accepts(Index(grants), id, certificate) && Accepts(Index(grants), other, certificate) ==> id == other
  {
    ListedIff(grants, id, certificate);
    ListedIff(grants, other, certificate);
    if Accepts(Index(grants), id, certificate) && Accepts(Index(grants), other, certificate) {
      var i :| 0 <= i < |grants| && grants[i].participantId.id == id && grants[i].certificate == certificate;
      var j :| 0 <= j < |grants| && grants[j].participantId.id == other && grants[j].certificate == certificate;
      assert i == j;
    }
  }

  /** The check made before a request reaches its handler; no allowlist means a trusted network. */
  function Authorize(
    allowlist: Option<ClientAllowlist>, peerCertificate: Option<seq<byte>>, source: Option<Identity>)
    : Result<(), TransportError>
  {
    if allowlist.None? then Ok(())
    else if source.None? then Err(MissingSourceIdentity)
    else if source.value.id !in allowlist.value then Err(UnauthorizedClient)
    else if peerCertificate.None? then Err(UnauthorizedClient)
    else if peerCertificate.value !in allowlist.value[source.value.id] then Err(UnauthorizedClient)
    else Ok(())
  }

  /** With an allowlist in force, a request passes exactly when its claimed source was granted the peer's certificate. */
  lemma AuthorizedIffGranted(grants: seq<Grant>, peerCertificate: Option<seq<byte>>, source: Option<Identity>)
    requires DistinctCertificates(grants)
    ensures Authorize(Some(Index(grants)), peerCertificate, source).Ok? <==>
              && source.Some? && peerCertificate.Some?
              && exists g <- grants ::
                   g.participantId.id == source.value.id && g.certificate == peerCertificate.value
  {
    if source.Some? && peerCertificate.Some? {
      IndexAgreesWithGrants(grants, source.value.id, source.value.id, peerCertificate.value);
    }
  }

  /** What is answered before a request reaches its handler. */
  lemma AuthorizationOutcome(
    allowlist: Option<ClientAllowlist>, peerCertificate: Option<seq<byte>>, source: Option<Identity>)
    ensures var r := Authorize(allowlist, peerCertificate, source);
            if allowlist.None? then r == Ok(())
            else if source.None? then r == Err(MissingSourceIdentity)
            else if peerCertificate.Some? && Accepts(allowlist.value, source.value.id, peerCertificate.value) then
              r == Ok(())
            else r == Err(UnauthorizedClient)
  {
  }

  lemma {:induction false} ClashIsFirst(grants: seq<Grant>, n: nat) returns (k: nat)
    requires n <= |grants| && FirstClash(grants, n).Some?
    ensures k < n && ClashAt(grants, k) == FirstClash(grants, n)
    ensures forall i :: 0 <= i < k ==> ClashAt(grants, i).None?
  {
    if FirstClash(grants, n - 1).Some? {
      k := ClashIsFirst(grants, n - 1);
    } else {
      k := n - 1;
      NoClashBefore(grants, n - 1);
    }
  }

  lemma {:induction false} NoClashBefore(grants: seq<Grant>, n: nat)
    requires n <= |grants| && FirstClash(grants, n).None?
    ensures forall i :: 0 <= i < n ==> ClashAt(grants, i).None?
  {
    if n > 0 {
      NoClashBefore(grants, n - 1);
    }
  }

  /**
   A clash is the first certificate that was granted before: to somebody else, or to the same
   participant again.
   */
  lemma ClashOutcome(grants: seq<Grant>)
    requires FirstClash(grants, |grants|).Some?
    ensures exists j, k :: 0 <= j < k < |grants|
              && grants[j].certificate == grants[k].certificate
              && (forall a, b :: 0 <= a < b < k ==> grants[a].certificate != grants[b].certificate)
              && FirstClash(grants, |grants|)
                 == Some(if grants[j].participantId.id != grants[k].participantId.id
                         then CertificateAssignedToMultipleIdentities else DuplicateAuthorizedClientCertificate)
  {
    var k := ClashIsFirst(grants, |grants|);
    var j :| 0 <= j < k && grants[j].certificate == grants[k].certificate;
    forall a, b | 0 <= a < b < k ensures grants[a].certificate != grants[b].certificate {
      assert ClashAt(grants, b).None?;
    }
    assert DistinctCertificates(grants[..k]);
    CertificateTaken(grants, k, j);
  }

  /** Positions in ascending order. */
  predicate Rising(positions: seq<nat>) {
    forall i, j :: 0 <= i < j < |positions| ==> positions[i] < positions[j]
  }

  lemma PositionsGrow(before: seq<nat>, last: nat)
    requires Rising(before) && forall k <- before :: k < last
    ensures Rising(before + [last])
  {
    assert forall i :: 0 <= i < |before| ==> before[i] in before;
  }

  /** A participant's certificates are those of its grants, in the order of the grants. */
  lemma {:induction false} CertificatesFollowGrants(grants: seq<Grant>, id: Text) returns (positions: seq<nat>)
    ensures Rising(positions)
    ensures forall k: nat :: k in positions <==> k < |grants| && grants[k].participantId.id == id
    ensures |positions| == |CertificatesOf(grants, id)|
    ensures forall i :: 0 <= i < |positions| ==>
              positions[i] < |grants| && CertificatesOf(grants, id)[i] == grants[positions[i]].certificate
  {
    if grants == [] {
      positions := [];
    } else {
      var last := |grants| - 1;
      var before := CertificatesFollowGrants(grants[..last], id);
      positions := if grants[last].participantId.id == id then before + [last] else before;
      PositionsGrow(before, last);
      assert forall k: nat :: k < last ==> grants[..last][k] == grants[k];
      forall k: nat ensures k in positions <==> k < |grants| && grants[k].participantId.id == id {
        assert k in positions <==> k in before || (k == last && grants[last].participantId.id == id);
      }
    }
  }
}
