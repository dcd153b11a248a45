/** KRM documents and the text of files. YAML itself is not modelled: a document is its text split
    into name, annotations and the rest, and a file's text is known by what it parses to. */
module Documents {
  import opened Options

  const PATH: string := "internal.config.kubernetes.io/path"
  const INDEX: string := "internal.config.kubernetes.io/index"

  datatype Node = Node(name: string, body: string, annotations: map<string, string>)

  /** The document as `SetAnnotations(map[string]string{})` leaves it. */
  function Cleared(n: Node): Node {
    n.(annotations := map[])
  }

  /** The document without the annotations that a reader adds and a writer removes. */
  function Stripped(n: Node): Node {
    n.(annotations := n.annotations - {PATH, INDEX})
  }

  /** `getPath`: the path annotation, or a file named after the document. */
  function GetPath(n: Node): string {
    if PATH in n.annotations then n.annotations[PATH]
    else if n.name == "" then "unnamed.yaml"
    else n.name + ".yaml"
  }

  /** Text in the printer's own layout, text laid out otherwise, or text that does not parse. So
      parsing undoes printing, and printing undoes parsing on the printer's own layout only. */
  datatype Text = Printed(docs: seq<Node>) | Formatted(raw: string, content: seq<Node>) | Malformed(raw: string)

  function Parse(t: Text): Option<seq<Node>> {
    match t
    case Printed(docs) => Some(docs)
    case Formatted(_, docs) => Some(docs)
    case Malformed(_) => None
  }

  type Files = map<string, Text>

  /** Indexing a Go map: a missing key reads as the empty text, which holds no document. */
  function At(files: Files, path: string): Text {
    if path in files then files[path] else Printed([])
  }
}
