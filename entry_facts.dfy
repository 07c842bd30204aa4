/** Properties of the declarative filter and map on entry lists. */
module EntryFacts {
  import opened Php
  import opened CursorModel
  import opened CursorFacts

  /** An entry survives the filter exactly when it is in the list and its value matches. */
  lemma {:induction false} FilterEntriesMembers(p: Value -> bool, es: seq<Entry>)
    ensures forall e :: e in FilterEntries(p, es) <==> e in es && p(e.value)
  {
    if es != [] {
      FilterEntriesMembers(p, es[1..]);
      assert es == [es[0]] + es[1..];
    }
  }

  /** The filter keeps the relative order: it picks a subsequence of `es`. */
  lemma {:induction false} FilterEntriesLength(p: Value -> bool, es: seq<Entry>)
    ensures |FilterEntries(p, es)| <= |es|
    ensures |FilterEntries(p, es)| == |es| <==> forall i :: 0 <= i < |es| ==> p(es[i].value)
  {
    if es != [] {
      FilterEntriesLength(p, es[1..]);
      assert forall i :: 1 <= i < |es| ==> es[i] == es[1..][i - 1];
    }
  }

  /** Nothing survives exactly when no value matches. */
  lemma FilterEntriesEmpty(p: Value -> bool, es: seq<Entry>)
    ensures FilterEntries(p, es) == [] <==> forall i :: 0 <= i < |es| ==> !p(es[i].value)
  {
    FilterEntriesMembers(p, es);
    if FilterEntries(p, es) != [] {
      assert FilterEntries(p, es)[0] in FilterEntries(p, es);
    }
  }

  /** A filter and its complement split the list: their sizes add up. */
  lemma {:induction false} FilterPartition(p: Value -> bool, es: seq<Entry>)
    ensures |FilterEntries(p, es)| + |FilterEntries(v => !p(v), es)| == |es|
  {
    if es != [] {
      FilterPartition(p, es[1..]);
    }
  }

  /** Filtering twice by the same predicate changes nothing: `filter(p)->filter(p)` yields `filter(p)`. */
  lemma {:induction false} FilterIdempotent(p: Value -> bool, es: seq<Entry>)
    ensures FilterEntries(p, FilterEntries(p, es)) == FilterEntries(p, es)
  {
    if es != [] {
      FilterIdempotent(p, es[1..]);
      var rest := FilterEntries(p, es[1..]);
      if p(es[0].value) {
        assert FilterEntries(p, es) == [es[0]] + rest;
        FilterEntriesCons(p, es[0], rest);
      } else {
        assert FilterEntries(p, es) == rest;
      }
    }
  }

  /** The first surviving entry is the first entry whose value matches. */
  lemma {:induction false} FilterEntriesHead(p: Value -> bool, es: seq<Entry>)
    requires FilterEntries(p, es) != []
    ensures exists k :: 0 <= k < |es| && FilterEntries(p, es)[0] == es[k] && p(es[k].value)
                        && forall j :: 0 <= j < k ==> !p(es[j].value)
  {
    if !p(es[0].value) {
      FilterEntriesHead(p, es[1..]);
      var k :| 0 <= k < |es[1..]| && FilterEntries(p, es[1..])[0] == es[1..][k] && p(es[1..][k].value)
               && forall j :: 0 <= j < k ==> !p(es[1..][j].value);
      assert forall j :: 1 <= j < k + 1 ==> es[j] == es[1..][j - 1];
    }
  }

  /** The map keeps every key and the length, and applies `f` to each value. */
  lemma {:induction false} MapEntriesPointwise(f: Value -> Value, es: seq<Entry>)
    ensures |MapEntries(f, es)| == |es|
    ensures forall i :: 0 <= i < |es| ==> MapEntries(f, es)[i] == Entry(es[i].key, f(es[i].value))
  {
    if es != [] {
      MapEntriesPointwise(f, es[1..]);
      assert forall i :: 1 <= i < |es| ==> es[i] == es[1..][i - 1];
    }
  }

  /** Mapping by `f` and then by `g` is mapping by their composition. */
  lemma {:induction false} MapEntriesCompose(f: Value -> Value, g: Value -> Value, es: seq<Entry>)
    ensures MapEntries(g, MapEntries(f, es)) == MapEntries(v => g(f(v)), es)
  {
    if es != [] {
      MapEntriesCompose(f, g, es[1..]);
      var m := MapEntries(f, es);
      assert m[1..] == MapEntries(f, es[1..]);
    }
  }
}
