/** Within one chunk: derive each row's key, keep the rows whose key prefix is
    a field-0 text of the chunk, and group the kept rows by key in ascending
    key order (`groupby` sorts its keys), input order within a group. */
module Grouping {
  import opened Cells
  import opened Keys

  /** Python's `<` on strings: lexicographic by code point, a proper prefix first. */
  predicate Less(a: string, b: string)
    decreases |a|
  {
    if a == [] then b != []
    else if b == [] then false
    else if a[0] != b[0] then a[0] < b[0]
    else Less(a[1..], b[1..])
  }

  lemma {:induction false} LessIrreflexive(a: string)
    ensures !Less(a, a)
    decreases |a|
  {
    if a != [] {
      LessIrreflexive(a[1..]);
    }
  }

  lemma {:induction false} LessTransitive(a: string, b: string, c: string)
    requires Less(a, b) && Less(b, c)
    ensures Less(a, c)
    decreases |a|
  {
    if a != [] && b != [] && c != [] && a[0] == b[0] && b[0] == c[0] {
      LessTransitive(a[1..], b[1..], c[1..]);
    }
  }

  lemma {:induction false} LessTotal(a: string, b: string)
    requires a != b
    ensures Less(a, b) || Less(b, a)
    decreases |a|
  {
    if a != [] && b != [] && a[0] == b[0] {
      assert a == [a[0]] + a[1..] && b == [b[0]] + b[1..];
      LessTotal(a[1..], b[1..]);
    }
  }

  lemma {:induction false} LessAsymmetric(a: string, b: string)
    requires Less(a, b)
    ensures !Less(b, a)
    decreases |a|
  {
    if a != [] && b != [] && a[0] == b[0] {
      LessAsymmetric(a[1..], b[1..]);
    }
  }

  /** Strictly ascending, hence without repetition. */
  predicate StrictlyAscending(ks: seq<string>)
  {
    forall i, j :: 0 <= i < j < |ks| ==> Less(ks[i], ks[j])
  }

  /** A row of the chunk with its key, and the tuple the row yields once the
      key column has been added to the chunk (the key is its last value). */
  datatype Keyed = Keyed(key: string, tuple: seq<Cell>)

  /** Adds the key column to every row of the chunk. */
  function WithKeys(chunk: seq<Row>): (r: seq<Keyed>)
    ensures |r| == |chunk|
    ensures forall i :: 0 <= i < |chunk| ==>
      r[i].key == Key(chunk[i].text0, chunk[i].text1) && r[i].tuple == chunk[i].cells + [Str(r[i].key)]
  {
    seq(|chunk|, i requires 0 <= i < |chunk| =>
      var k := Key(chunk[i].text0, chunk[i].text1); Keyed(k, chunk[i].cells + [Str(k)]))
  }

  /** The field-0 texts of the chunk's rows. */
  function FirstTexts(chunk: seq<Row>): (r: seq<string>)
    ensures |r| == |chunk| && forall i :: 0 <= i < |chunk| ==> r[i] == chunk[i].text0
  {
    seq(|chunk|, i requires 0 <= i < |chunk| => chunk[i].text0)
  }

  /** The filter: a keyed row stays when the text of its key before the first `-`
      is one of `firsts`; the rows that stay keep their order. */
  function Listed(ks: seq<Keyed>, firsts: seq<string>): (r: seq<Keyed>)
    ensures |r| <= |ks|
    ensures forall x :: x in r <==> x in ks && BeforeDash(x.key) in firsts
  {
    if ks == [] then []
    else (if BeforeDash(ks[0].key) in firsts then [ks[0]] else []) + Listed(ks[1..], firsts)
  }

  /** When every row passes the test, the filter keeps the whole chunk. */
  lemma {:induction false} ListedKeepsAll(ks: seq<Keyed>, firsts: seq<string>)
    requires forall i :: 0 <= i < |ks| ==> BeforeDash(ks[i].key) in firsts
    ensures Listed(ks, firsts) == ks
  {
    if ks != [] {
      ListedKeepsAll(ks[1..], firsts);
    }
  }

  /** The filter works row by row: filtering two stretches of rows one after
      the other gives the filtered first stretch followed by the filtered
      second, so the kept rows keep their order and each is kept once. */
  lemma {:induction false} ListedAppend(a: seq<Keyed>, b: seq<Keyed>, firsts: seq<string>)
    ensures Listed(a + b, firsts) == Listed(a, firsts) + Listed(b, firsts)
    decreases |a|
  {
    if a == [] {
      assert a + b == b;
    } else {
      assert (a + b)[1..] == a[1..] + b;
      ListedAppend(a[1..], b, firsts);
    }
  }

  /** The rows of a chunk that survive the filter. */
  function Survivors(chunk: seq<Row>): (r: seq<Keyed>)
    ensures |r| <= |chunk|
    ensures forall x :: x in r ==> x in WithKeys(chunk)
  {
    Listed(WithKeys(chunk), FirstTexts(chunk))
  }

  /** A row survives exactly when the text of its key before the first `-`
      equals the field-0 text of some row of the same chunk. */
  lemma SurvivesIff(chunk: seq<Row>, i: nat)
    requires i < |chunk|
    ensures WithKeys(chunk)[i] in Survivors(chunk) <==>
      exists j :: 0 <= j < |chunk| && chunk[j].text0 == BeforeDash(Key(chunk[i].text0, chunk[i].text1))
  {
    var firsts := FirstTexts(chunk);
    var p := BeforeDash(Key(chunk[i].text0, chunk[i].text1));
    if p in firsts {
      var j :| 0 <= j < |firsts| && firsts[j] == p;
      assert chunk[j].text0 == p;
    }
    if exists j :: 0 <= j < |chunk| && chunk[j].text0 == p {
      var j :| 0 <= j < |chunk| && chunk[j].text0 == p;
      assert firsts[j] == p;
    }
  }

  /** A row whose field-0 text has neither `-` nor `.0` always survives: its
      key prefix is its own field-0 text. */
  lemma PlainRowSurvives(chunk: seq<Row>, i: nat)
    requires i < |chunk|
    requires '-' !in chunk[i].text0 && !ContainsDotZero(chunk[i].text0)
    ensures WithKeys(chunk)[i] in Survivors(chunk)
  {
    PlainFirstFieldIsKeyPrefix(chunk[i].text0, chunk[i].text1);
    SurvivesIff(chunk, i);
  }

  /** When no field-0 text of the chunk has `-` or `.0`, nothing is filtered out. */
  lemma PlainChunkKeepsAll(chunk: seq<Row>)
    requires forall i :: 0 <= i < |chunk| ==> '-' !in chunk[i].text0 && !ContainsDotZero(chunk[i].text0)
    ensures Survivors(chunk) == WithKeys(chunk)
  {
    var ks := WithKeys(chunk);
    forall i | 0 <= i < |ks|
      ensures BeforeDash(ks[i].key) in FirstTexts(chunk)
    {
      PlainFirstFieldIsKeyPrefix(chunk[i].text0, chunk[i].text1);
      assert FirstTexts(chunk)[i] == chunk[i].text0;
    }
    ListedKeepsAll(ks, FirstTexts(chunk));
  }

  /** A row alone in its chunk whose field-0 text is "1.0" is dropped: its key
      "1-A" has the prefix "1", which is no field-0 text of the chunk. */
  lemma DecimalFirstFieldIsDropped()
    ensures Survivors([Row("1.0", "A", [])]) == []
  {
    var chunk := [Row("1.0", "A", [])];
    assert "1.0" + "-" + "A" == "1.0-A" == ['1'] + (".0" + "-A");
    assert "-A" == ['-'] + "A" && "A" == ['A'] + "";
    ReplaceKeepsLeadingChar('A', "");
    ReplaceKeepsLeadingChar('-', "A");
    ReplaceDropsLeadingMatch("-A");
    ReplaceKeepsLeadingChar('1', ".0-A");
    assert ReplaceDotZero("") == "";
    assert ['1'] + (['-'] + (['A'] + "")) == "1-A";
    assert Key("1.0", "A") == "1-A";
    assert BeforeDash("1-A") == "1" by {
      assert "1-A"[1..] == "-A";
    }
    assert FirstTexts(chunk) == ["1.0"];
    assert "1" != "1.0";
  }

  /** Inserts a key into a strictly ascending sequence, unless it is already there. */
  function Insert(k: string, ks: seq<string>): (r: seq<string>)
    requires StrictlyAscending(ks)
    ensures StrictlyAscending(r)
    ensures forall j :: j in r <==> j == k || j in ks
  {
    if ks == [] then [k]
    else if k == ks[0] then ks
    else if Less(k, ks[0]) then
      assert forall j :: 0 < j < |ks| ==> Less(k, ks[j]) by {
        forall j | 0 < j < |ks| ensures Less(k, ks[j]) { LessTransitive(k, ks[0], ks[j]); }
      }
      [k] + ks
    else
      var rest := Insert(k, ks[1..]);
      assert Less(ks[0], k) by { LessTotal(k, ks[0]); }
      assert forall j :: j in rest ==> Less(ks[0], j);
      [ks[0]] + rest
  }

  /** The distinct keys of the rows, in ascending order. */
  function SortedKeys(xs: seq<Keyed>): (ks: seq<string>)
    ensures StrictlyAscending(ks)
    ensures forall k :: k in ks <==> exists x :: x in xs && x.key == k
  {
    if xs == [] then []
    else
      var rest := SortedKeys(xs[1..]);
      assert forall x :: x in xs[1..] ==> x in xs;
      assert forall x :: x in xs ==> x == xs[0] || x in xs[1..];
      Insert(xs[0].key, rest)
  }

  /** The tuples of the rows whose key is `k`, in input order. */
  function Select(xs: seq<Keyed>, k: string): (r: seq<seq<Cell>>)
    ensures |r| <= |xs|
    ensures forall t :: t in r <==> Keyed(k, t) in xs
  {
    if xs == [] then []
    else (if xs[0].key == k then [xs[0].tuple] else []) + Select(xs[1..], k)
  }

  /** Selecting from two stretches of rows one after the other gives the
      tuples of the first stretch followed by those of the second: a group
      keeps its rows in input order, each row once. */
  lemma {:induction false} SelectAppend(xs: seq<Keyed>, ys: seq<Keyed>, k: string)
    ensures Select(xs + ys, k) == Select(xs, k) + Select(ys, k)
    decreases |xs|
  {
    if xs == [] {
      assert xs + ys == ys;
    } else {
      assert (xs + ys)[1..] == xs[1..] + ys;
      SelectAppend(xs[1..], ys, k);
    }
  }

  /** One group: a key and the tuples of its rows. */
  datatype Group = Group(key: string, tuples: seq<seq<Cell>>)

  /** The groups for the given keys, in the order of the keys. */
  function GroupsFor(xs: seq<Keyed>, ks: seq<string>): (gs: seq<Group>)
    ensures |gs| == |ks|
    ensures forall i :: 0 <= i < |ks| ==> gs[i].key == ks[i] && gs[i].tuples == Select(xs, ks[i])
  {
    if ks == [] then [] else [Group(ks[0], Select(xs, ks[0]))] + GroupsFor(xs, ks[1..])
  }

  /** `groupby(key)` with its default sorting. */
  function GroupBy(xs: seq<Keyed>): (gs: seq<Group>)
    ensures forall i, j :: 0 <= i < j < |gs| ==> Less(gs[i].key, gs[j].key)
    ensures forall i :: 0 <= i < |gs| ==> gs[i].tuples == Select(xs, gs[i].key)
    ensures forall x :: x in xs ==> exists i :: 0 <= i < |gs| && gs[i].key == x.key
  {
    var ks := SortedKeys(xs);
    assert forall x :: x in xs ==> x.key in ks;
    GroupsFor(xs, ks)
  }

  /** The groups of one chunk, in the order the merge visits them. */
  function ChunkGroups(chunk: seq<Row>): (gs: seq<Group>)
    ensures forall i :: 0 <= i < |gs| ==> gs[i].tuples != []
    ensures TotalSize(gs) == |Survivors(chunk)|
  {
    GroupByPartitions(Survivors(chunk));
    GroupBy(Survivors(chunk))
  }

  /** The number of tuples in all groups together. */
  function TotalSize(gs: seq<Group>): nat
  {
    if gs == [] then 0 else |gs[0].tuples| + TotalSize(gs[1..])
  }

  /** The groups are visited in strictly ascending key order; no group is empty;
      every row lands in the group of its own key, and the group sizes add up to
      the number of rows, so each row is in exactly one group. */
  lemma GroupByPartitions(xs: seq<Keyed>)
    ensures var gs := GroupBy(xs);
      && (forall i, j :: 0 <= i < j < |gs| ==> Less(gs[i].key, gs[j].key))
      && (forall i :: 0 <= i < |gs| ==> gs[i].tuples != [])
      && (forall x :: x in xs ==> exists i :: 0 <= i < |gs| && gs[i].key == x.key && x.tuple in gs[i].tuples)
      && TotalSize(gs) == |xs|
  {
    var ks := SortedKeys(xs);
    var gs := GroupBy(xs);
    forall i | 0 <= i < |gs|
      ensures gs[i].tuples != []
    {
      assert ks[i] in ks;
      var x :| x in xs && x.key == ks[i];
      assert Keyed(ks[i], x.tuple) == x;
    }
    forall x | x in xs
      ensures exists i :: 0 <= i < |gs| && gs[i].key == x.key && x.tuple in gs[i].tuples
    {
      assert x.key in ks;
      var i :| 0 <= i < |ks| && ks[i] == x.key;
      assert Keyed(x.key, x.tuple) == x;
    }
    forall x | x in xs ensures x.key in ks { }
    SizesAddUp(xs, ks);
  }

  /** The number of times `k` occurs in `ks`. */
  function Occurrences(ks: seq<string>, k: string): nat
  {
    if ks == [] then 0 else (if ks[0] == k then 1 else 0) + Occurrences(ks[1..], k)
  }

  /** A key of a strictly ascending sequence occurs in it once. */
  lemma {:induction false} AscendingOccursOnce(ks: seq<string>, k: string)
    requires StrictlyAscending(ks)
    ensures Occurrences(ks, k) == if k in ks then 1 else 0
  {
    if ks != [] {
      AscendingOccursOnce(ks[1..], k);
      if ks[0] == k {
        forall j | 0 <= j < |ks[1..]| ensures ks[1..][j] != k {
          assert Less(ks[0], ks[j + 1]);
          LessIrreflexive(k);
        }
      }
    }
  }

  /** Removing the first row takes it out of exactly the groups with its key. */
  lemma {:induction false} SizesShift(xs: seq<Keyed>, ks: seq<string>)
    requires xs != []
    ensures TotalSize(GroupsFor(xs, ks)) == TotalSize(GroupsFor(xs[1..], ks)) + Occurrences(ks, xs[0].key)
  {
    if ks != [] {
      SizesShift(xs, ks[1..]);
      assert GroupsFor(xs, ks)[1..] == GroupsFor(xs, ks[1..]);
      assert GroupsFor(xs[1..], ks)[1..] == GroupsFor(xs[1..], ks[1..]);
    }
  }

  /** For ascending keys that include every row's key, the group sizes add up to the row count. */
  lemma {:induction false} SizesAddUp(xs: seq<Keyed>, ks: seq<string>)
    requires StrictlyAscending(ks)
    requires forall x :: x in xs ==> x.key in ks
    ensures TotalSize(GroupsFor(xs, ks)) == |xs|
  {
    if xs == [] {
      EmptyGroupsAreEmpty(ks);
    } else {
      SizesShift(xs, ks);
      AscendingOccursOnce(ks, xs[0].key);
      assert forall x :: x in xs[1..] ==> x in xs;
      SizesAddUp(xs[1..], ks);
    }
  }

  lemma {:induction false} EmptyGroupsAreEmpty(ks: seq<string>)
    ensures TotalSize(GroupsFor([], ks)) == 0
  {
    if ks != [] {
      assert GroupsFor([], ks)[1..] == GroupsFor([], ks[1..]);
      EmptyGroupsAreEmpty(ks[1..]);
    }
  }
}
