/** Small value types shared by the client and the server models. */
module Common {

  datatype Option<+T> = None | Some(value: T)

  /** A key of a JSON object as Python's `dict.get` sees it: missing, present with
      `null`, or present with a value. */
  datatype Field<+T> = Absent | Null | Given(value: T)

  /** `dict.get(key, default)`: the default only when the key is missing; an explicit
      `null` comes back as None. */
  function GetOr<T>(f: Field<T>, default: T): (r: Option<T>)
    ensures f.Absent? ==> r == Some(default)
    ensures f.Null? ==> r == None
    ensures f.Given? ==> r == Some(f.value)
  {
    match f
    case Absent => Some(default)
    case Null => None
    case Given(v) => Some(v)
  }

  /** Strictly increasing sequences: the order in which SQLite returns rows and in
      which JavaScript enumerates integer-like object keys. */
  ghost predicate StrictlyIncreasing(s: seq<nat>)
  {
    forall i, j :: 0 <= i < j < |s| ==> s[i] < s[j]
  }

  ghost predicate NoDuplicates<T>(s: seq<T>)
  {
    forall i, j :: 0 <= i < j < |s| ==> s[i] != s[j]
  }

  /** The set of a sequence's elements. */
  function Elems<T(!new)>(s: seq<T>): (r: set<T>)
    ensures forall x :: x in r <==> x in s
  {
    set x | x in s
  }

  /** The elements of a duplicate-free sequence form a set of the same size. */
  lemma {:induction false} DistinctCard<T(!new)>(s: seq<T>)
    requires NoDuplicates(s)
    ensures |Elems(s)| == |s|
  {
    if s != [] {
      var t := s[..|s| - 1];
      assert NoDuplicates(t);
      DistinctCard(t);
      var last := s[|s| - 1];
      assert last !in t;
      assert Elems(s) == Elems(t) + {last};
    }
  }
}
