/** Values of a row as both database protocols deliver them, NULL as the empty text. */
module Fields {

  import opened Wrappers
  import opened Bytes

  type Field = Option<Blob>

  function Text(f: Field): Blob {
    if f == None then [] else f.value
  }

  function Texts(row: seq<Field>): seq<Blob> {
    if row == [] then [] else [Text(row[0])] + Texts(row[1..])
  }

  // One value, or a run of them, before what may fail to be read.
  function Prefixed(first: Blob, others: Option<seq<Blob>>): Option<seq<Blob>> {
    if others == None then None else Some([first] + others.value)
  }

  function After(row: seq<Blob>, others: Option<seq<Blob>>): Option<seq<Blob>> {
    if others == None then None else Some(row + others.value)
  }

  lemma AfterPrefixed(row: seq<Blob>, first: Blob, others: Option<seq<Blob>>)
    ensures After(row, Prefixed(first, others)) == After(row + [first], others)
  {
    if others.Some? { assert row + ([first] + others.value) == row + [first] + others.value; }
  }

  lemma AfterNothing(others: Option<seq<Blob>>)
    ensures After([], others) == others
  {
    if others.Some? { assert [] + others.value == others.value; }
  }
}
