/** Logical nodes and the runtime they are bound to (src/node.rs). */
module Nodes {
  import opened Prelude
  import opened Strings
  import opened Resource

  datatype RuntimeSpec = RuntimeSpec(name: Text, version: Text)

  const UNBOUND := RuntimeSpec([], [])

  datatype LogicalNode = LogicalNode(id: Text, resources: CompositeResource, runtime: RuntimeSpec)

  datatype NodeError = EmptyRuntimeName | EmptyRuntimeVersion

  function ValidateRuntime(runtime: RuntimeSpec): Option<NodeError> {
    if runtime.name == [] then Some(EmptyRuntimeName)
    else if runtime.version == [] then Some(EmptyRuntimeVersion)
    else None
  }

  function WithRuntime(node: LogicalNode, runtime: RuntimeSpec): Result<LogicalNode, NodeError> {
    match ValidateRuntime(runtime)
    case Some(e) => Err(e)
    case None => Ok(node.(runtime := runtime))
  }
}
