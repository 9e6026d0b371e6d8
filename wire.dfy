/** Values shared by the capture window and the WebSocket client. */
module Wire {

  /** An unsigned 8-bit value (C#'s `byte`). */
  type byte = x: int | 0 <= x < 256

  datatype Option<T> = None | Some(value: T)

  /** A report, either as the window asks the client to send it or as the client puts it on the wire.
      The client serialises a mouse report with tag "m" and a keyboard report with tag "k". */
  datatype Msg =
    | Mouse(x: int, y: int, b: byte, w: int)
    | Keyboard(m: byte, k: seq<int>)

  /** The JSON tag the client writes for each kind of report. */
  function Tag(msg: Msg): string
  {
    match msg
    case Mouse(_, _, _, _) => "m"
    case Keyboard(_, _) => "k"
  }

  /** Duplicate-free sequences (a set kept in insertion order). */
  predicate Distinct<T(==)>(s: seq<T>)
  {
    forall i, j :: 0 <= i < j < |s| ==> s[i] != s[j]
  }
}
