/**
 The pending batch of the transcript upload modal and the two state updaters that change it:
 `mergeFiles`, which adds newly selected files by name with the first-seen file winning, and
 `removeFile`, which drops the entries with a given name. The batch is an ordered list of
 files; the JavaScript `Map` that `mergeFiles` builds is kept as its entries in insertion
 order, each keyed by its file's name.
 */
module UploadBatch {
  import opened JsValues

  /** Some entry of `s` is named `n` (`Map.prototype.has` on the name-keyed map). */
  predicate NameIn(s: seq<File>, n: string)
    decreases |s|
  {
    s != [] && (s[0].name == n || NameIn(s[1..], n))
  }

  /** No two entries of `s` share a name: the shape of every JavaScript `Map` keyed by name. */
  predicate DistinctNames(s: seq<File>)
    decreases |s|
  {
    s == [] || (!NameIn(s[1..], s[0].name) && DistinctNames(s[1..]))
  }

  lemma {:induction false} NameInAppend(a: seq<File>, b: seq<File>, n: string)
    ensures NameIn(a + b, n) <==> NameIn(a, n) || NameIn(b, n)
    decreases |a|
  {
    if a == [] {
      assert a + b == b;
    } else {
      assert (a + b)[0] == a[0] && (a + b)[1..] == a[1..] + b;
      NameInAppend(a[1..], b, n);
    }
  }

  lemma {:induction false} NameInAt(s: seq<File>, k: nat)
    requires k < |s|
    ensures NameIn(s, s[k].name)
    decreases k
  {
    if k > 0 {
      assert s[1..][k - 1] == s[k];
      NameInAt(s[1..], k - 1);
    }
  }

  /** Appending one file keeps the names distinct exactly when its name is new. */
  lemma {:induction false} DistinctSnoc(a: seq<File>, f: File)
    ensures DistinctNames(a + [f]) <==> DistinctNames(a) && !NameIn(a, f.name)
    decreases |a|
  {
    if a == [] {
      assert [] + [f] == [f] && [f][1..] == [];
    } else {
      assert (a + [f])[0] == a[0] && (a + [f])[1..] == a[1..] + [f];
      assert [f][1..] == [];
      NameInAppend(a[1..], [f], a[0].name);
      DistinctSnoc(a[1..], f);
    }
  }

  /** Distinct names in the usual sense: two different positions never carry the same name. */
  lemma {:induction false} DistinctAt(s: seq<File>, i: nat, j: nat)
    requires DistinctNames(s) && i < j < |s|
    ensures s[i].name != s[j].name
    decreases i
  {
    if i == 0 {
      assert s[1..][j - 1] == s[j];
      NameInAt(s[1..], j - 1);
    } else {
      assert s[1..][i - 1] == s[i] && s[1..][j - 1] == s[j];
      DistinctAt(s[1..], i - 1, j - 1);
    }
  }

  /** The position of the first entry of `s` named `n`. */
  function FirstIndex(s: seq<File>, n: string): (i: nat)
    requires NameIn(s, n)
    ensures i < |s| && s[i].name == n && !NameIn(s[..i], n)
    decreases |s|
  {
    var init, last := s[..|s| - 1], s[|s| - 1];
    assert s == init + [last];
    NameInAppend(init, [last], n);
    if NameIn(init, n) then
      var i := FirstIndex(init, n);
      assert init[..i] == s[..i];
      i
    else
      assert [last][1..] == [];
      |s| - 1
  }

  /**
   `Map.prototype.set(f.name, f)`: an entry with the same name has its value replaced where
   it stands, and otherwise the new entry goes last.
   */
  function Put(m: seq<File>, f: File): seq<File>
    decreases |m|
  {
    if m == [] then [f]
    else if m[0].name == f.name then [f] + m[1..]
    else [m[0]] + Put(m[1..], f)
  }

  /** Setting a name the map does not have appends the entry. */
  lemma {:induction false} PutAbsent(m: seq<File>, f: File)
    requires !NameIn(m, f.name)
    ensures Put(m, f) == m + [f]
    decreases |m|
  {
    if m != [] {
      PutAbsent(m[1..], f);
      assert [m[0]] + (m[1..] + [f]) == m + [f];
    }
  }

  /** After setting `f`, the map has the names it had plus `f.name`, and they stay distinct. */
  lemma {:induction false} PutNames(m: seq<File>, f: File, n: string)
    ensures NameIn(Put(m, f), n) <==> NameIn(m, n) || n == f.name
    ensures DistinctNames(m) ==> DistinctNames(Put(m, f))
    decreases |m|
  {
    if m == [] {
      assert [f][1..] == [];
    } else if m[0].name == f.name {
      assert ([f] + m[1..])[0] == f && ([f] + m[1..])[1..] == m[1..];
    } else {
      var r := [m[0]] + Put(m[1..], f);
      assert r[0] == m[0] && r[1..] == Put(m[1..], f);
      PutNames(m[1..], f, n);
      PutNames(m[1..], f, m[0].name);
    }
  }

  /** `new Map(prev.map((file) => [file.name, file]))`, read back as its values in order. */
  function FromEntries(s: seq<File>): seq<File>
    decreases |s|
  {
    if s == [] then [] else Put(FromEntries(s[..|s| - 1]), s[|s| - 1])
  }

  /**
   Building the map from a list whose names are already distinct gives back that list:
   nothing is overwritten and the order is the list's.
   */
  lemma {:induction false} FromEntriesOfDistinct(s: seq<File>)
    requires DistinctNames(s)
    ensures FromEntries(s) == s
    decreases |s|
  {
    if s != [] {
      var init, last := s[..|s| - 1], s[|s| - 1];
      assert s == init + [last];
      DistinctSnoc(init, last);
      FromEntriesOfDistinct(init);
      PutAbsent(init, last);
    }
  }

  /**
   The files of `incoming` that the merge loop appends to a map already holding `known`:
   each file whose name is neither in `known` nor on an earlier file of `incoming`, in order.
   */
  function Fresh(known: seq<File>, incoming: seq<File>): (r: seq<File>)
    ensures |r| <= |incoming|
    decreases |incoming|
  {
    if incoming == [] then []
    else
      var init, last := incoming[..|incoming| - 1], incoming[|incoming| - 1];
      Fresh(known, init) + (if NameIn(known, last.name) || NameIn(init, last.name) then [] else [last])
  }

  /** The names the merge adds are exactly the names of `incoming` that are not known yet. */
  lemma {:induction false} FreshNames(known: seq<File>, incoming: seq<File>, n: string)
    ensures NameIn(Fresh(known, incoming), n) <==> NameIn(incoming, n) && !NameIn(known, n)
    decreases |incoming|
  {
    if incoming != [] {
      var init, last := incoming[..|incoming| - 1], incoming[|incoming| - 1];
      var r0 := Fresh(known, init);
      assert incoming == init + [last];
      assert [last][1..] == [];
      NameInAppend(init, [last], n);
      FreshNames(known, init, n);
      if !(NameIn(known, last.name) || NameIn(init, last.name)) {
        NameInAppend(r0, [last], n);
      } else {
        assert Fresh(known, incoming) == r0;
      }
    }
  }

  /**
   Each file the merge adds is the first file of `incoming` that carries its name.
   */
  lemma {:induction false} FreshFirstSeen(known: seq<File>, incoming: seq<File>, k: nat)
    requires k < |Fresh(known, incoming)|
    ensures var f := Fresh(known, incoming)[k];
      NameIn(incoming, f.name) && f == incoming[FirstIndex(incoming, f.name)]
    decreases |incoming|
  {
    var init, last := incoming[..|incoming| - 1], incoming[|incoming| - 1];
    var r0 := Fresh(known, init);
    var r := Fresh(known, incoming);
    assert incoming == init + [last];
    if k < |r0| {
      assert r[k] == r0[k];
      FreshFirstSeen(known, init, k);
      NameInAppend(init, [last], r[k].name);
      assert FirstIndex(incoming, r[k].name) == FirstIndex(init, r[k].name);
    } else {
      assert r[k] == last && !NameIn(init, last.name);
      NameInAt(incoming, |incoming| - 1);
      assert FirstIndex(incoming, last.name) == |incoming| - 1;
    }
  }

  /** The files the merge adds come in the order in which their names first appear in `incoming`. */
  lemma {:induction false} FreshInOrder(known: seq<File>, incoming: seq<File>, p: nat, q: nat)
    requires p < q < |Fresh(known, incoming)|
    ensures var r := Fresh(known, incoming);
      NameIn(incoming, r[p].name) && NameIn(incoming, r[q].name) &&
      FirstIndex(incoming, r[p].name) < FirstIndex(incoming, r[q].name)
    decreases |incoming|
  {
    var init, last := incoming[..|incoming| - 1], incoming[|incoming| - 1];
    var r0 := Fresh(known, init);
    var r := Fresh(known, incoming);
    assert incoming == init + [last];
    FreshFirstSeen(known, incoming, p);
    FreshFirstSeen(known, incoming, q);
    FreshFirstSeen(known, init, p);
    assert r[p] == r0[p];
    NameInAppend(init, [last], r[p].name);
    assert FirstIndex(incoming, r[p].name) == FirstIndex(init, r[p].name);
    if q < |r0| {
      assert r[q] == r0[q];
      FreshInOrder(known, init, p, q);
      NameInAppend(init, [last], r[q].name);
      assert FirstIndex(incoming, r[q].name) == FirstIndex(init, r[q].name);
    } else {
      assert r[q] == last && !NameIn(init, last.name);
      assert FirstIndex(incoming, last.name) == |incoming| - 1;
    }
  }

  /** Adding the new files to a map with distinct names keeps them distinct. */
  lemma {:induction false} KnownThenFresh(known: seq<File>, incoming: seq<File>)
    requires DistinctNames(known)
    ensures DistinctNames(known + Fresh(known, incoming))
    decreases |incoming|
  {
    if incoming == [] {
      assert known + Fresh(known, incoming) == known;
    } else {
      var init, last := incoming[..|incoming| - 1], incoming[|incoming| - 1];
      var r0 := Fresh(known, init);
      KnownThenFresh(known, init);
      if !(NameIn(known, last.name) || NameIn(init, last.name)) {
        assert Fresh(known, incoming) == r0 + [last];
        assert known + Fresh(known, incoming) == (known + r0) + [last];
        NameInAppend(known, r0, last.name);
        FreshNames(known, init, last.name);
        DistinctSnoc(known + r0, last);
      } else {
        assert Fresh(known, incoming) == r0 + [];
        assert known + Fresh(known, incoming) == known + r0;
      }
    }
  }

  /**
   Files with pairwise distinct names none of which is known yet are all appended, in
   their order.
   */
  lemma {:induction false} AllNewAppendedWhole(known: seq<File>, incoming: seq<File>)
    requires DistinctNames(incoming)
    requires forall n :: NameIn(incoming, n) ==> !NameIn(known, n)
    ensures Fresh(known, incoming) == incoming
    decreases |incoming|
  {
    if incoming != [] {
      var init, last := incoming[..|incoming| - 1], incoming[|incoming| - 1];
      assert incoming == init + [last];
      DistinctSnoc(init, last);
      NameInAt(incoming, |incoming| - 1);
      forall n | NameIn(init, n) ensures !NameIn(known, n) {
        NameInAppend(init, [last], n);
      }
      AllNewAppendedWhole(known, init);
    }
  }

  /** What `mergeFiles(incoming)` makes of the batch `prev`. */
  function Merged(prev: seq<File>, incoming: seq<File>): seq<File> {
    FromEntries(prev) + Fresh(FromEntries(prev), incoming)
  }

  /**
   Merging into a batch whose names are distinct (every batch the modal holds): the files
   already selected stay first, unchanged and in order, followed by the new files; the
   batch still has distinct names; and its names are the old ones plus those of `incoming`.
   */
  lemma {:induction false} MergeKeepsSelection(prev: seq<File>, incoming: seq<File>)
    requires DistinctNames(prev)
    ensures Merged(prev, incoming) == prev + Fresh(prev, incoming)
    ensures DistinctNames(Merged(prev, incoming))
    ensures forall n :: NameIn(Merged(prev, incoming), n) <==> NameIn(prev, n) || NameIn(incoming, n)
  {
    FromEntriesOfDistinct(prev);
    KnownThenFresh(prev, incoming);
    forall n ensures NameIn(prev + Fresh(prev, incoming), n) <==> NameIn(prev, n) || NameIn(incoming, n) {
      NameInAppend(prev, Fresh(prev, incoming), n);
      FreshNames(prev, incoming, n);
    }
  }

  /**
   An entry the merge appends (position `k`, past the old batch) carries a name the old
   batch lacks, and it is the FIRST file of that name in the incoming list: a later
   duplicate in the same list is dropped.
   */
  lemma {:induction false} MergeAppendsFirstSeen(prev: seq<File>, incoming: seq<File>, k: nat)
    requires DistinctNames(prev)
    requires |prev| <= k < |Merged(prev, incoming)|
    ensures var e := Merged(prev, incoming)[k];
      && !NameIn(prev, e.name) && NameIn(incoming, e.name)
      && e == incoming[FirstIndex(incoming, e.name)]
  {
    FromEntriesOfDistinct(prev);
    var f := Fresh(prev, incoming);
    assert Merged(prev, incoming)[k] == f[k - |prev|];
    NameInAt(f, k - |prev|);
    FreshNames(prev, incoming, f[k - |prev|].name);
    FreshFirstSeen(prev, incoming, k - |prev|);
  }

  /** Appended entries keep the order in which their names first occur in the incoming list. */
  lemma {:induction false} MergeAppendsInOrder(prev: seq<File>, incoming: seq<File>, p: nat, q: nat)
    requires DistinctNames(prev)
    requires |prev| <= p < q < |Merged(prev, incoming)|
    ensures var merged := Merged(prev, incoming);
      && NameIn(incoming, merged[p].name) && NameIn(incoming, merged[q].name)
      && FirstIndex(incoming, merged[p].name) < FirstIndex(incoming, merged[q].name)
  {
    FromEntriesOfDistinct(prev);
    var f := Fresh(prev, incoming);
    assert Merged(prev, incoming)[p] == f[p - |prev|] && Merged(prev, incoming)[q] == f[q - |prev|];
    FreshInOrder(prev, incoming, p - |prev|, q - |prev|);
  }

  /**
   The merge as the source runs it: build a map from the current batch, then walk
   `incoming` and set each file whose name the map does not have yet.
   */
  method MergeFiles(prev: seq<File>, incoming: seq<File>) returns (merged: seq<File>)
    ensures merged == Merged(prev, incoming)
  {
    var existing: seq<File> := [];
    var i := 0;
    while i < |prev|
      invariant 0 <= i <= |prev|
      invariant existing == FromEntries(prev[..i])
    {
      assert prev[..i + 1][..i] == prev[..i];
      existing := Put(existing, prev[i]);
      i := i + 1;
    }
    assert prev[..i] == prev;
    ghost var base := existing;
    var j := 0;
    while j < |incoming|
      invariant 0 <= j <= |incoming|
      invariant existing == base + Fresh(base, incoming[..j])
    {
      var file := incoming[j];
      assert incoming[..j + 1][..j] == incoming[..j];
      NameInAppend(base, Fresh(base, incoming[..j]), file.name);
      FreshNames(base, incoming[..j], file.name);
      if !NameIn(existing, file.name) {
        PutAbsent(existing, file);
        existing := Put(existing, file);
      }
      j := j + 1;
    }
    assert incoming[..j] == incoming;
    merged := existing;
  }

  /** `r` is `s` with some entries dropped and the rest in their order. */
  predicate Subsequence(r: seq<File>, s: seq<File>)
    decreases |s|
  {
    r == [] || (s != [] && if r[0] == s[0] then Subsequence(r[1..], s[1..]) else Subsequence(r, s[1..]))
  }

  /** `prev.filter((file) => file.name !== name)`. */
  function Removed(s: seq<File>, name: string): seq<File>
    decreases |s|
  {
    if s == [] then []
    else (if s[0].name == name then [] else [s[0]]) + Removed(s[1..], name)
  }

  /** After removing `name`, the batch has exactly the other names it had. */
  lemma {:induction false} RemovedNames(s: seq<File>, name: string, n: string)
    ensures NameIn(Removed(s, name), n) <==> NameIn(s, n) && n != name
    decreases |s|
  {
    if s != [] {
      var rest := Removed(s[1..], name);
      RemovedNames(s[1..], name, n);
      if s[0].name == name {
        assert Removed(s, name) == rest;
      } else {
        var r := [s[0]] + rest;
        assert Removed(s, name) == r && r[0] == s[0] && r[1..] == rest;
      }
    }
  }

  /**
   Removing `name` drops every file with that name and keeps every other file as often as
   it occurred.
   */
  lemma {:induction false} RemovedCount(s: seq<File>, name: string, f: File)
    ensures multiset(Removed(s, name))[f] == if f.name == name then 0 else multiset(s)[f]
    decreases |s|
  {
    if s != [] {
      RemovedCount(s[1..], name, f);
      assert s == [s[0]] + s[1..];
      var head := if s[0].name == name then [] else [s[0]];
      assert Removed(s, name) == head + Removed(s[1..], name);
    }
  }

  /** The files that survive a removal keep their relative order. */
  lemma {:induction false} RemovedInOrder(s: seq<File>, name: string)
    ensures Subsequence(Removed(s, name), s)
    decreases |s|
  {
    if s != [] {
      var rest := Removed(s[1..], name);
      RemovedInOrder(s[1..], name);
      if s[0].name == name {
        assert Removed(s, name) == rest;
        if rest != [] {
          RemovedNames(s[1..], name, rest[0].name);
          NameInAt(rest, 0);
          assert rest[0] != s[0];
        }
      } else {
        var r := [s[0]] + rest;
        assert Removed(s, name) == r && r[0] == s[0] && r[1..] == rest;
      }
    }
  }

  /** Dropping the entries with one name keeps the names of a batch distinct. */
  lemma {:induction false} RemovedKeepsDistinct(s: seq<File>, name: string)
    requires DistinctNames(s)
    ensures DistinctNames(Removed(s, name))
    decreases |s|
  {
    if s != [] {
      var rest := Removed(s[1..], name);
      RemovedKeepsDistinct(s[1..], name);
      if s[0].name != name {
        var r := [s[0]] + rest;
        assert Removed(s, name) == r && r[0] == s[0] && r[1..] == rest;
        RemovedNames(s[1..], name, s[0].name);
        assert !NameIn(rest, s[0].name);
      } else {
        assert Removed(s, name) == [] + rest == rest;
      }
    }
  }
}
