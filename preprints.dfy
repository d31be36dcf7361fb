/** The preprint DOI merge of collabVisServer/scripts/getNewPreprints.js: the related preprints of
    a fetched collection are appended to the stored preprint list, one `{doi}` record per DOI that
    the list does not hold yet.  Fetching the collection and writing the file back are not part of
    this model: the stored records and the `rel_doi` values of the collection are given. */
module Preprints {

  /** The value of a `doi` or `rel_doi` property: a string, or `undefined` when the record has no
      such property.  Strict equality compares two such values as Dafny's `==` does. */
  datatype Doi = Undefined | Doi(text: string)

  /** A record of the stored preprint list: its `doi` and the other properties it may carry, whose
      values are kept opaque.  `otherFields` never holds the key `"doi"`: that property is the
      `doi` field alone. */
  datatype Preprint = Preprint(doi: Doi, otherFields: map<string, string>)

  /** The record appended for a new DOI: `{doi: d}` and nothing else. */
  function NewEntry(d: Doi): Preprint
  {
    Preprint(d, map[])
  }

  /** Does some record of `preprints` carry the DOI `d`? */
  predicate HasDoi(preprints: seq<Preprint>, d: Doi)
  {
    exists i :: 0 <= i < |preprints| && preprints[i].doi == d
  }

  function DoiSet(preprints: seq<Preprint>): (ds: set<Doi>)
    ensures forall d :: d in ds <==> HasDoi(preprints, d)
  {
    set i | 0 <= i < |preprints| :: preprints[i].doi
  }

  function Elems(dois: seq<Doi>): set<Doi>
  {
    set d | d in dois
  }

  predicate DistinctDois(preprints: seq<Preprint>)
  {
    forall i, j :: 0 <= i < j < |preprints| ==> preprints[i].doi != preprints[j].doi
  }

  /** The DOIs of `rels` that are not in `seen`, each once (`UnseenDistinct`), in the order of its
      first occurrence in `rels` (`UnseenOrder`). */
  function Unseen(seen: set<Doi>, rels: seq<Doi>): (r: seq<Doi>)
    ensures forall d :: d in r <==> d in rels && d !in seen
    ensures |r| <= |rels|
    decreases |rels|
  {
    if rels == [] then []
    else if rels[0] in seen then Unseen(seen, rels[1..])
    else [rels[0]] + Unseen(seen + {rels[0]}, rels[1..])
  }

  /** No DOI is listed twice among the unseen ones. */
  lemma {:induction false} UnseenDistinct(seen: set<Doi>, rels: seq<Doi>)
    ensures forall i, j :: 0 <= i < j < |Unseen(seen, rels)| ==> Unseen(seen, rels)[i] != Unseen(seen, rels)[j]
    decreases |rels|
  {
    if rels != [] {
      var a, rest := rels[0], rels[1..];
      if a in seen {
        UnseenDistinct(seen, rest);
      } else {
        var r' := Unseen(seen + {a}, rest);
        UnseenDistinct(seen + {a}, rest);
        assert Unseen(seen, rels) == [a] + r';
        assert a !in r';
      }
    }
  }

  /** The index of the first occurrence of `d` in `rels`. */
  function FirstIndex(rels: seq<Doi>, d: Doi): (k: nat)
    requires d in rels
    ensures k < |rels| && rels[k] == d
    ensures forall i :: 0 <= i < k ==> rels[i] != d
  {
    if rels[0] == d then 0 else 1 + FirstIndex(rels[1..], d)
  }

  /** Past the first element, the first occurrence of another DOI is one further on than in the
      tail. */
  lemma FirstIndexTail(rels: seq<Doi>, d: Doi)
    requires d in rels && d != rels[0]
    ensures d in rels[1..] && FirstIndex(rels, d) == 1 + FirstIndex(rels[1..], d)
  {
  }

  /** The unseen DOIs come in the order of their first occurrences in `rels`. */
  lemma {:induction false} UnseenOrder(seen: set<Doi>, rels: seq<Doi>, i: nat, j: nat)
    requires i < j < |Unseen(seen, rels)|
    ensures Unseen(seen, rels)[i] in rels && Unseen(seen, rels)[j] in rels
    ensures FirstIndex(rels, Unseen(seen, rels)[i]) < FirstIndex(rels, Unseen(seen, rels)[j])
    decreases |rels|, 1
  {
    if rels[0] in seen {
      UnseenOrderSkip(seen, rels, i, j);
    } else {
      UnseenOrderTake(seen, rels, i, j);
    }
  }

  /** `UnseenOrder` when the first related DOI is already seen and is skipped. */
  lemma {:induction false} UnseenOrderSkip(seen: set<Doi>, rels: seq<Doi>, i: nat, j: nat)
    requires rels != [] && rels[0] in seen
    requires i < j < |Unseen(seen, rels)|
    ensures Unseen(seen, rels)[i] in rels && Unseen(seen, rels)[j] in rels
    ensures FirstIndex(rels, Unseen(seen, rels)[i]) < FirstIndex(rels, Unseen(seen, rels)[j])
    decreases |rels|, 0
  {
    var rest := rels[1..];
    var r := Unseen(seen, rest);
    assert Unseen(seen, rels) == r;
    var x, y := r[i], r[j];
    assert x in r && y in r;
    assert x in rest && x !in seen && y in rest && y !in seen;
    UnseenOrder(seen, rest, i, j);
    FirstIndexShift(rels, x, y);
  }

  /** Each unseen DOI is a related DOI outside `seen`. */
  lemma UnseenElem(seen: set<Doi>, rels: seq<Doi>, k: nat)
    requires k < |Unseen(seen, rels)|
    ensures Unseen(seen, rels)[k] in rels && Unseen(seen, rels)[k] !in seen
  {
    assert Unseen(seen, rels)[k] in Unseen(seen, rels);
  }

  /** Unfolding `Unseen` when the first related DOI is new: it comes first. */
  lemma UnseenCons(seen: set<Doi>, rels: seq<Doi>)
    requires rels != [] && rels[0] !in seen
    ensures Unseen(seen, rels) == [rels[0]] + Unseen(seen + {rels[0]}, rels[1..])
  {
  }

  /** The first related DOI occurs before any other. */
  lemma FirstIndexHead(rels: seq<Doi>, y: Doi)
    requires y in rels && y != rels[0]
    ensures FirstIndex(rels, rels[0]) < FirstIndex(rels, y)
  {
  }

  /** Dropping a first DOI that is neither `x` nor `y` keeps their order. */
  lemma FirstIndexShift(rels: seq<Doi>, x: Doi, y: Doi)
    requires rels != [] && x != rels[0] && y != rels[0]
    requires x in rels[1..] && y in rels[1..] && FirstIndex(rels[1..], x) < FirstIndex(rels[1..], y)
    ensures x in rels && y in rels && FirstIndex(rels, x) < FirstIndex(rels, y)
  {
    FirstIndexTail(rels, x);
    FirstIndexTail(rels, y);
  }

  /** `UnseenOrder` when the first related DOI is new and comes first among the unseen ones. */
  lemma {:induction false} UnseenOrderTake(seen: set<Doi>, rels: seq<Doi>, i: nat, j: nat)
    requires rels != [] && rels[0] !in seen
    requires i < j < |Unseen(seen, rels)|
    ensures Unseen(seen, rels)[i] in rels && Unseen(seen, rels)[j] in rels
    ensures FirstIndex(rels, Unseen(seen, rels)[i]) < FirstIndex(rels, Unseen(seen, rels)[j])
    decreases |rels|, 0
  {
    var a, rest := rels[0], rels[1..];
    var r' := Unseen(seen + {a}, rest);
    UnseenCons(seen, rels);
    var j' := j - 1;
    var y := r'[j'];
    assert Unseen(seen, rels)[j] == y;
    UnseenElem(seen + {a}, rest, j');
    assert y in rest && y != a;
    if i == 0 {
      assert Unseen(seen, rels)[i] == a;
      FirstIndexHead(rels, y);
    } else {
      var i' := i - 1;
      var x := r'[i'];
      assert Unseen(seen, rels)[i] == x;
      UnseenElem(seen + {a}, rest, i');
      assert x in rest && x != a;
      UnseenOrder(seen + {a}, rest, i', j');
      FirstIndexShift(rels, x, y);
    }
  }

  /** One `{doi}` record per DOI of `dois`, in the same order. */
  function Entries(dois: seq<Doi>): seq<Preprint>
  {
    seq(|dois|, k requires 0 <= k < |dois| => NewEntry(dois[k]))
  }

  /** The appended records carry exactly the DOIs they were made from. */
  lemma EntriesDois(dois: seq<Doi>)
    ensures forall d :: HasDoi(Entries(dois), d) <==> d in dois
  {
    var es := Entries(dois);
    forall d | d in dois
      ensures HasDoi(es, d)
    {
      var k :| 0 <= k < |dois| && dois[k] == d;
      assert es[k].doi == d;
    }
    forall d | HasDoi(es, d)
      ensures d in dois
    {
      var k :| 0 <= k < |es| && es[k].doi == d;
      assert dois[k] == d;
    }
  }

  /** What the merge makes of the stored list `preprints` given the related DOIs `rels`: the stored
      records, untouched and in their order, followed by a `{doi}` record for each DOI of `rels`
      that no stored record carries, in the order of its first occurrence in `rels`. */
  function Merged(preprints: seq<Preprint>, rels: seq<Doi>): seq<Preprint>
  {
    preprints + Entries(Unseen(DoiSet(preprints), rels))
  }

  /** Prepending to a concatenation is prepending to its first part. */
  lemma ConsAppend(a: Doi, u: seq<Doi>, t: seq<Doi>)
    ensures [a] + (u + t) == ([a] + u) + t
  {
  }

  /** Extending the related list by one DOI adds that DOI to the unseen ones exactly when it is
      neither seen nor among the earlier related DOIs. */
  lemma {:induction false} UnseenSnoc(seen: set<Doi>, rels: seq<Doi>, d: Doi)
    ensures Unseen(seen, rels + [d])
         == Unseen(seen, rels) + (if d in seen || d in rels then [] else [d])
    decreases |rels|
  {
    if rels == [] {
      assert rels + [d] == [d];
    } else {
      var a, rest := rels[0], rels[1..];
      assert (rels + [d])[0] == a && (rels + [d])[1..] == rest + [d];
      if a in seen {
        UnseenSnoc(seen, rest, d);
        assert d in seen || d in rels <==> d in seen || d in rest;
      } else {
        var tail := if d in seen || d in rels then [] else [d];
        UnseenSnoc(seen + {a}, rest, d);
        assert tail == if d in seen + {a} || d in rest then [] else [d];
        UnseenCons(seen, rels);
        UnseenCons(seen, rels + [d]);
        ConsAppend(a, Unseen(seen + {a}, rest), tail);
      }
    }
  }

  /** The number of records appended is the number of distinct related DOIs not stored before. */
  lemma {:induction false} UnseenCount(seen: set<Doi>, rels: seq<Doi>)
    ensures |Unseen(seen, rels)| == |Elems(rels) - seen|
    decreases |rels|
  {
    if rels != [] {
      var d, rest := rels[0], rels[1..];
      assert Elems(rels) == {d} + Elems(rest);
      if d in seen {
        UnseenCount(seen, rest);
        assert Elems(rels) - seen == Elems(rest) - seen;
      } else {
        UnseenCount(seen + {d}, rest);
        assert Elems(rels) - seen == {d} + (Elems(rest) - (seen + {d}));
      }
    }
  }

  /** After the merge a DOI is carried by some record exactly when it was stored before or is one
      of the related DOIs: every related DOI is now present. */
  lemma MergedCovers(preprints: seq<Preprint>, rels: seq<Doi>)
    ensures forall d :: HasDoi(Merged(preprints, rels), d) <==> HasDoi(preprints, d) || d in rels
  {
    var m := Merged(preprints, rels);
    var added := Unseen(DoiSet(preprints), rels);
    forall d | HasDoi(preprints, d) || d in rels
      ensures HasDoi(m, d)
    {
      if !HasDoi(preprints, d) {
        var k :| 0 <= k < |added| && added[k] == d;
        assert m[|preprints| + k].doi == d;
      } else {
        var i :| 0 <= i < |preprints| && preprints[i].doi == d;
        assert m[i].doi == d;
      }
    }
    forall d | HasDoi(m, d)
      ensures HasDoi(preprints, d) || d in rels
    {
      var i :| 0 <= i < |m| && m[i].doi == d;
      if i >= |preprints| {
        assert added[i - |preprints|] == d;
      } else {
        assert preprints[i].doi == d;
      }
    }
  }

  /** One more related DOI appends its `{doi}` record exactly when the list merged so far does not
      carry it yet: the step of the merge loop. */
  lemma MergedSnoc(preprints: seq<Preprint>, rels: seq<Doi>, d: Doi)
    ensures Merged(preprints, rels + [d])
         == if HasDoi(Merged(preprints, rels), d) then Merged(preprints, rels)
            else Merged(preprints, rels) + [NewEntry(d)]
  {
    var seen := DoiSet(preprints);
    UnseenSnoc(seen, rels, d);
    MergedCovers(preprints, rels);
    var before := Unseen(seen, rels);
    if !HasDoi(Merged(preprints, rels), d) {
      assert Entries(before + [d]) == Entries(before) + [NewEntry(d)];
    }
  }

  /** No DOI is appended twice, nor appended when already stored: a list whose DOIs were distinct
      keeps them distinct. */
  lemma MergedDistinct(preprints: seq<Preprint>, rels: seq<Doi>)
    requires DistinctDois(preprints)
    ensures DistinctDois(Merged(preprints, rels))
  {
    var m := Merged(preprints, rels);
    var n := |preprints|;
    var added := Unseen(DoiSet(preprints), rels);
    UnseenDistinct(DoiSet(preprints), rels);
    forall i, j | 0 <= i < j < |m|
      ensures m[i].doi != m[j].doi
    {
      if n <= i {
        assert m[i].doi == added[i - n] && m[j].doi == added[j - n];
      } else if n <= j {
        assert m[j].doi == added[j - n];
        assert added[j - n] in added;
        assert m[i].doi == preprints[i].doi;
      }
    }
  }

  /** The list grows by the number of distinct new DOIs, which is at most the number of related
      entries. */
  lemma MergedGrowth(preprints: seq<Preprint>, rels: seq<Doi>)
    ensures |Merged(preprints, rels)| - |preprints| == |Elems(rels) - DoiSet(preprints)|
    ensures |Merged(preprints, rels)| - |preprints| <= |rels|
  {
    UnseenCount(DoiSet(preprints), rels);
  }

  /** The stored records stay, in order, at the front of the merged list. */
  lemma MergedPrefix(preprints: seq<Preprint>, rels: seq<Doi>)
    ensures |preprints| <= |Merged(preprints, rels)| && Merged(preprints, rels)[..|preprints|] == preprints
  {
  }

  /** The merge leaves the list as it was exactly when every related DOI is already stored. */
  lemma MergedUnchanged(preprints: seq<Preprint>, rels: seq<Doi>)
    ensures Merged(preprints, rels) == preprints <==> forall d :: d in rels ==> HasDoi(preprints, d)
  {
    var added := Unseen(DoiSet(preprints), rels);
    if forall d :: d in rels ==> HasDoi(preprints, d) {
      if added != [] {
        assert added[0] in added;
      }
    } else {
      var d :| d in rels && !HasDoi(preprints, d);
      assert d in added;
      assert |Merged(preprints, rels)| > |preprints|;
    }
  }

  /** Running the merge a second time with the same related DOIs changes nothing. */
  lemma MergedIdempotent(preprints: seq<Preprint>, rels: seq<Doi>)
    ensures Merged(Merged(preprints, rels), rels) == Merged(preprints, rels)
  {
    MergedCovers(preprints, rels);
    MergedUnchanged(Merged(preprints, rels), rels);
  }

  /** The stored preprint list, which the script loads from its JSON file and updates in place. */
  class PreprintStore {
    var preprints: seq<Preprint>

    constructor (loaded: seq<Preprint>)
      ensures preprints == loaded
    {
      preprints := loaded;
    }

    /** The merge loop of `updatePreprints`, given the `rel_doi` of each entry of the fetched
        collection's `rels`; `added` is the number of records it appends. */
    method UpdatePreprints(rels: seq<Doi>) returns (added: nat)
      modifies this
      ensures preprints == Merged(old(preprints), rels)
      ensures preprints[..|old(preprints)|] == old(preprints)
      ensures added == |preprints| - |old(preprints)| <= |rels|
    {
      ghost var stored := preprints;
      added := 0;
      var i := 0;
      while i < |rels|
        invariant i <= |rels|
        invariant preprints == Merged(stored, rels[..i])
        invariant added == |preprints| - |stored|
      {
        var thisDoi := rels[i];
        assert Merged(stored, rels[..i + 1]) ==
          if HasDoi(preprints, thisDoi) then preprints else preprints + [NewEntry(thisDoi)]
        by {
          assert rels[..i + 1] == rels[..i] + [thisDoi];
          MergedSnoc(stored, rels[..i], thisDoi);
        }
        if !HasDoi(preprints, thisDoi) {
          preprints := preprints + [NewEntry(thisDoi)];
          added := added + 1;
        }
        i := i + 1;
      }
      assert preprints == Merged(stored, rels) by {
        assert rels[..i] == rels;
      }
      assert preprints[..|stored|] == stored by {
        MergedPrefix(stored, rels);
      }
      MergedGrowth(stored, rels);
    }
  }
}
