/** Shared value types, and texts joined by a delimiter. */
module Common {

  /** A nullable pointer. */
  datatype Option<+T> = None | Some(value: T)

  /** The gint64 of the library. */
  type int64 = v: int | -0x8000_0000_0000_0000 <= v < 0x8000_0000_0000_0000

  function Map<A, B>(f: A -> B, s: seq<A>): (r: seq<B>)
    ensures |r| == |s| && forall i | 0 <= i < |s| :: r[i] == f(s[i])
  {
    seq(|s|, i requires 0 <= i < |s| => f(s[i]))
  }

  /** The fields with the delimiter between them. */
  function Join(fields: seq<string>, delimiter: string): string {
    if |fields| == 0 then "" else
      fields[0] + (if |fields| == 1 then "" else delimiter + Join(fields[1..], delimiter))
  }

  lemma {:induction false} JoinStep(fields: seq<string>, next: string, delimiter: string)
    ensures Join(fields + [next], delimiter) == Join(fields, delimiter) + (if fields == [] then "" else delimiter) + next
  {
    if fields != [] {
      JoinStep(fields[1..], next, delimiter);
      assert (fields + [next])[1..] == fields[1..] + [next];
    }
  }

  lemma JoinUpTo(fields: seq<string>, i: nat, delimiter: string)
    requires i < |fields|
    ensures Join(fields[..i + 1], delimiter)
            == Join(fields[..i], delimiter) + (if i > 0 then delimiter else "") + fields[i]
  {
    JoinStep(fields[..i], fields[i], delimiter);
    assert fields[..i + 1] == fields[..i] + [fields[i]];
  }
}
