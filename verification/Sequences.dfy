/** Sequences put together from parts. */
module Sequences {

  function Flatten<T>(parts: seq<seq<T>>): seq<T> {
    if parts == [] then [] else Flatten(parts[..|parts| - 1]) + parts[|parts| - 1]
  }

  lemma FlattenGrows<T>(parts: seq<seq<T>>, part: seq<T>)
    ensures Flatten(parts + [part]) == Flatten(parts) + part
  {
    assert (parts + [part])[..|parts|] == parts;
  }

  lemma FlattenNothing<T>()
    ensures Flatten<T>([]) == []
  {
  }

  /** More in the last part. */
  lemma FlattenReplacesLast<T>(parts: seq<seq<T>>, part: seq<T>)
    requires parts != []
    ensures var n := |parts| - 1;
            && Flatten(parts) == Flatten(parts[..n]) + parts[n]
            && Flatten(parts[n := part]) == Flatten(parts[..n]) + part
  {
    var n := |parts| - 1;
    assert parts[n := part][..n] == parts[..n];
  }
}
