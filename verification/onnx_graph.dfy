/** The part of an ONNX model that calibration looks at: operator nodes with
    their names, tensor names and attributes, and the names of the graph's
    declared outputs. Element types, shapes and initializers are not modelled. */
module OnnxGraph {

  /** A node attribute. `f` is its float payload and `i` its integer payload;
      protobuf reads the one that was never set as zero. */
  datatype Attribute = Attribute(name: string, f: real, i: int)

  /** An operator node as `onnx.helper.make_node` builds it. */
  datatype Node = Node(
    opType: string,
    name: string,
    inputs: seq<string>,
    outputs: seq<string>,
    attributes: seq<Attribute>)

  /** A graph: its nodes in serialized order and the names of its declared
      outputs, in declaration order. */
  datatype Graph = Graph(nodes: seq<Node>, outputs: seq<string>)

  /** The Python exceptions the calibration code can raise. */
  datatype Error = IndexError | KeyError | ValueError(message: string)

  datatype Option<+T> = None | Some(value: T)

  datatype Result<+T> = Ok(value: T) | Err(error: Error)

  /** The outcome of an operation that works by side effect. */
  datatype Outcome = Pass | Fail(error: Error)
}
