/** The values the form stores per answer, and how Python's `str()` renders
    them when they are sent to the slides service. */
module Values {
  import opened Wrappers
  import opened Text

  /** A stored answer: text, a whole number, or the list of selected
      additional services. */
  datatype Value = VStr(s: string) | VInt(i: int) | VList(items: seq<string>)

  /** `str(v)`: text as it is, numbers in decimal, lists as their `repr`
      with each item in single quotes. */
  function Str(v: Value): (r: string)
    ensures v.VStr? ==> r == v.s
    ensures v.VInt? ==> ParseInt(r) == Some(v.i)
    ensures v.VList? ==> |r| >= 2 && r[0] == '[' && r[|r| - 1] == ']'
  {
    match v
    case VStr(s) => s
    case VInt(i) => ParseIntOfString(i); IntToString(i)
    case VList(items) =>
      "[" + Join(seq(|items|, k requires 0 <= k < |items| => "'" + items[k] + "'"), ", ") + "]"
  }

  /** No item occurs twice. */
  predicate NoDuplicates(items: seq<string>) {
    forall i, j :: 0 <= i < j < |items| ==> items[i] != items[j]
  }
}
