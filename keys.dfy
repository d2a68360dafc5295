/** The group key of an input row: the texts of fields 0 and 1 joined by `-`,
    with every `.0` removed (`remove_decimal_part`), and the part of a key
    before its first `-` that the filter compares. */
module Keys {

  /** `'.0' in s`. */
  predicate ContainsDotZero(s: string)
  {
    exists i :: 0 <= i < |s| - 1 && s[i] == '.' && s[i + 1] == '0'
  }

  /** Python's `s.replace('.0', '')`: scans left to right and removes each
      non-overlapping `.0`; a character that does not start a match is kept. */
  function ReplaceDotZero(s: string): (r: string)
    ensures |r| <= |s|
    decreases |s|
  {
    if |s| < 2 then s
    else if s[0] == '.' && s[1] == '0' then ReplaceDotZero(s[2..])
    else [s[0]] + ReplaceDotZero(s[1..])
  }

  /** `remove_decimal_part`, applied to the (always textual) concatenated key.
      The `'.0' in s` test never changes the result: without a `.0` the
      replacement would leave `s` as it is anyway. */
  function RemoveDecimalPart(s: string): (r: string)
    ensures r == ReplaceDotZero(s)
    ensures !ContainsDotZero(s) ==> r == s
  {
    if ContainsDotZero(s) then ReplaceDotZero(s)
    else
      ReplaceWithoutMatch(s);
      s
  }

  /** The key of a row whose fields 0 and 1 have the texts `t0` and `t1`: no
      longer than the joined texts, and always holding the joining `-`
      (`KeyKeepsSeparator` counts every `-` it keeps). */
  function Key(t0: string, t1: string): (r: string)
    ensures |r| <= |t0| + |t1| + 1
    ensures '-' in r
  {
    var s := t0 + "-" + t1;
    KeyKeepsSeparator(t0, t1);
    RemoveDecimalPart(s)
  }

  /** `s.split('-')[0]`: the text before the first `-`, or all of `s` when it has none. */
  function BeforeDash(s: string): (r: string)
    ensures |r| <= |s| && r == s[..|r|]
    ensures '-' !in r
    ensures |r| < |s| ==> s[|r|] == '-'
  {
    if s == [] || s[0] == '-' then []
    else [s[0]] + BeforeDash(s[1..])
  }

  /** A string without `.0` passes through the replacement untouched. */
  lemma {:induction false} ReplaceWithoutMatch(s: string)
    requires !ContainsDotZero(s)
    ensures ReplaceDotZero(s) == s
    decreases |s|
  {
    if |s| >= 2 {
      NoDotZeroInTail(s);
      ReplaceWithoutMatch(s[1..]);
    }
  }

  /** Dropping the first character of a string without `.0` leaves one without `.0`. */
  lemma NoDotZeroInTail(s: string)
    requires s != [] && !ContainsDotZero(s)
    ensures !ContainsDotZero(s[1..])
  {
    forall i | 0 <= i < |s[1..]| - 1
      ensures !(s[1..][i] == '.' && s[1..][i + 1] == '0')
    {
      assert s[1..][i] == s[i + 1] && s[1..][i + 1] == s[i + 2];
    }
  }

  /** The replacement only removes: the result is never longer, it is shorter
      by an even number of characters, and it has the same length exactly when
      there was no `.0` to remove. */
  lemma {:induction false} ReplaceLength(s: string)
    ensures |ReplaceDotZero(s)| <= |s|
    ensures (|s| - |ReplaceDotZero(s)|) % 2 == 0
    ensures |ReplaceDotZero(s)| == |s| <==> !ContainsDotZero(s)
    decreases |s|
  {
    if |s| >= 2 {
      if s[0] == '.' && s[1] == '0' {
        ReplaceLength(s[2..]);
        assert ContainsDotZero(s) by { assert s[0] == '.' && s[1] == '0'; }
      } else {
        ReplaceLength(s[1..]);
        ContainsDotZeroTail(s);
      }
    } else {
      assert !ContainsDotZero(s);
    }
  }

  /** The number of `.0` matches a left-to-right scan meets when it moves on
      by one character after each position. Two `.0` can never overlap, so
      this counts every occurrence. */
  function DotZeros(s: string): nat
    decreases |s|
  {
    if |s| < 2 then 0
    else (if s[0] == '.' && s[1] == '0' then 1 else 0) + DotZeros(s[1..])
  }

  /** Each `.0` in the text shortens it by exactly two characters: the
      replacement removes every occurrence and nothing else. */
  lemma {:induction false} ReplaceRemovesTwoPerMatch(s: string)
    ensures |s| - |ReplaceDotZero(s)| == 2 * DotZeros(s)
    decreases |s|
  {
    if |s| >= 2 {
      if s[0] == '.' && s[1] == '0' {
        ReplaceRemovesTwoPerMatch(s[2..]);
        assert s[1..][0] == '0';
        assert s[1..][1..] == s[2..];
        assert DotZeros(s[1..]) == DotZeros(s[2..]);
      } else {
        ReplaceRemovesTwoPerMatch(s[1..]);
      }
    }
  }

  /** When `s` does not start with `.0`, it has a `.0` exactly when its tail has one. */
  lemma ContainsDotZeroTail(s: string)
    requires |s| >= 2 && !(s[0] == '.' && s[1] == '0')
    ensures ContainsDotZero(s) <==> ContainsDotZero(s[1..])
  {
    if ContainsDotZero(s) {
      var i :| 0 <= i < |s| - 1 && s[i] == '.' && s[i + 1] == '0';
      assert i > 0;
      assert s[1..][i - 1] == '.' && s[1..][i] == '0';
    }
    if ContainsDotZero(s[1..]) {
      var i :| 0 <= i < |s[1..]| - 1 && s[1..][i] == '.' && s[1..][i + 1] == '0';
      assert s[i + 1] == '.' && s[i + 2] == '0';
    }
  }

  /** Only `.` and `0` are ever removed: every other character, the `-`
      separator in particular, occurs as often in the result as in the input. */
  lemma {:induction false} ReplaceKeepsOtherCharacters(s: string, c: char)
    requires c != '.' && c != '0'
    ensures multiset(ReplaceDotZero(s))[c] == multiset(s)[c]
    decreases |s|
  {
    if |s| >= 2 {
      if s[0] == '.' && s[1] == '0' {
        ReplaceKeepsOtherCharacters(s[2..], c);
        assert s == [s[0], s[1]] + s[2..];
        assert multiset(s) == multiset{s[0], s[1]} + multiset(s[2..]);
      } else {
        ReplaceKeepsOtherCharacters(s[1..], c);
        assert s == [s[0]] + s[1..];
        assert multiset(s) == multiset{s[0]} + multiset(s[1..]);
        assert multiset(ReplaceDotZero(s)) == multiset{s[0]} + multiset(ReplaceDotZero(s[1..]));
      }
    }
  }

  /** The key keeps the `-` that joins the two fields, and every `-` of the
      fields themselves. */
  lemma KeyKeepsSeparator(t0: string, t1: string)
    ensures multiset(RemoveDecimalPart(t0 + "-" + t1))['-'] == multiset(t0)['-'] + multiset(t1)['-'] + 1
    ensures '-' in RemoveDecimalPart(t0 + "-" + t1)
  {
    var s := t0 + "-" + t1;
    ReplaceKeepsOtherCharacters(s, '-');
    assert multiset(s) == multiset(t0) + multiset{'-'} + multiset(t1);
    assert '-' in multiset(RemoveDecimalPart(s));
  }

  /** Removing `.0` is not idempotent: a second pass can find a `.0` that the
      first one created. */
  lemma NotIdempotent()
    ensures RemoveDecimalPart("..00") == ".0"
    ensures RemoveDecimalPart(RemoveDecimalPart("..00")) == ""
  {
    assert ContainsDotZero("..00") by { assert "..00"[1] == '.' && "..00"[2] == '0'; }
    assert ContainsDotZero(".0") by { assert ".0"[0] == '.' && ".0"[1] == '0'; }
  }

  /** A `.0` at the front is dropped. */
  lemma ReplaceDropsLeadingMatch(t: string)
    ensures ReplaceDotZero(".0" + t) == ReplaceDotZero(t)
  {
    assert (".0" + t)[2..] == t;
  }

  /** A character other than `.` at the front is kept. */
  lemma ReplaceKeepsLeadingChar(c: char, t: string)
    requires c != '.'
    ensures ReplaceDotZero([c] + t) == [c] + ReplaceDotZero(t)
  {
    if t != [] {
      assert ([c] + t)[1..] == t;
    }
  }

  /** `.0` is removed anywhere in the key, not only at the end of a number. */
  lemma StripsInsideText()
    ensures Key("A.0B", "7") == "AB-7"
  {
    assert "A.0B" + "-" + "7" == "A.0B-7";
    assert ReplaceDotZero("") == "";
    ReplaceKeepsLeadingChar('7', "");
    ReplaceKeepsLeadingChar('-', "7");
    ReplaceKeepsLeadingChar('B', "-7");
    ReplaceDropsLeadingMatch("B-7");
    ReplaceKeepsLeadingChar('A', ".0B-7");
    assert "A.0B-7" == ['A'] + (".0" + "B-7");
    assert "B-7" == ['B'] + "-7" && "-7" == ['-'] + "7" && "7" == ['7'] + "";
    assert ['A'] + (['B'] + (['-'] + (['7'] + ""))) == "AB-7";
  }

  /** A prefix that holds no `.0` and does not end in `.` passes through the
      replacement as it is. */
  lemma {:induction false} ReplacePassesPrefix(a: string, b: string)
    requires !ContainsDotZero(a)
    requires a == [] || a[|a| - 1] != '.'
    ensures ReplaceDotZero(a + b) == a + ReplaceDotZero(b)
    decreases |a|
  {
    if a != [] {
      var s := a + b;
      assert s[0] == a[0];
      if |s| >= 2 {
        assert !(s[0] == '.' && s[1] == '0') by {
          if |a| >= 2 {
            assert s[1] == a[1];
            assert !(a[0] == '.' && a[1] == '0');
          }
        }
        NoDotZeroInTail(a);
        assert s[1..] == a[1..] + b;
        ReplacePassesPrefix(a[1..], b);
        calc {
          ReplaceDotZero(s);
          [s[0]] + ReplaceDotZero(s[1..]);
          [a[0]] + (a[1..] + ReplaceDotZero(b));
          { assert a == [a[0]] + a[1..]; }
          a + ReplaceDotZero(b);
        }
      } else {
        assert b == [] && s == a;
      }
    } else {
      assert a + b == b;
    }
  }

  /** The text before the first `-` of `a + "-" + b` is `a`, when `a` has no `-`. */
  lemma {:induction false} BeforeDashOfJoin(a: string, b: string)
    requires '-' !in a
    ensures BeforeDash(a + "-" + b) == a
    decreases |a|
  {
    if a != [] {
      assert (a + "-" + b)[1..] == a[1..] + "-" + b;
      BeforeDashOfJoin(a[1..], b);
    }
  }

  /** When the field-0 text has neither `-` nor `.0`, the part of the key before
      its first `-` is exactly that text. */
  lemma PlainFirstFieldIsKeyPrefix(t0: string, t1: string)
    requires '-' !in t0 && !ContainsDotZero(t0)
    ensures BeforeDash(Key(t0, t1)) == t0
  {
    var a := t0 + "-";
    forall i | 0 <= i < |a| - 1
      ensures !(a[i] == '.' && a[i + 1] == '0')
    {
      if i + 1 < |t0| {
        assert a[i] == t0[i] && a[i + 1] == t0[i + 1];
      }
    }
    ReplacePassesPrefix(a, t1);
    assert t0 + "-" + t1 == a + t1;
    BeforeDashOfJoin(t0, ReplaceDotZero(t1));
  }

  /** A field-0 text containing `-` never equals the prefix of its own key. */
  lemma DashInFirstFieldShortensPrefix(t0: string, t1: string)
    requires '-' in t0
    ensures BeforeDash(Key(t0, t1)) != t0
  {
  }

  /** The scan never matches across the join of `a` and `b` unless `a` ends
      in `.` and `b` starts with `0`: otherwise the two parts are replaced
      independently. */
  lemma {:induction false} ReplaceSplits(a: string, b: string)
    requires !(a != [] && b != [] && a[|a| - 1] == '.' && b[0] == '0')
    ensures ReplaceDotZero(a + b) == ReplaceDotZero(a) + ReplaceDotZero(b)
    decreases |a|
  {
    if a == [] {
      assert a + b == b;
    } else if |a| == 1 {
      if b != [] {
        assert (a + b)[0] == a[0] && (a + b)[1] == b[0];
        assert (a + b)[1..] == b;
        assert ReplaceDotZero(a + b) == a + ReplaceDotZero(b);
      }
    } else if a[0] == '.' && a[1] == '0' {
      assert (a + b)[0] == '.' && (a + b)[1] == '0';
      assert (a + b)[2..] == a[2..] + b;
      assert ReplaceDotZero(a + b) == ReplaceDotZero(a[2..] + b);
      ReplaceSplits(a[2..], b);
    } else {
      assert (a + b)[0] == a[0] && (a + b)[1] == a[1];
      assert (a + b)[1..] == a[1..] + b;
      assert ReplaceDotZero(a + b) == [a[0]] + ReplaceDotZero(a[1..] + b);
      ReplaceSplits(a[1..], b);
    }
  }

  /** A field whose text gains a trailing `.0` (an integer read as `10.0`
      rather than `10`) gives the same key, in field 0 as in field 1. */
  lemma DecimalTextSameKey(t0: string, t1: string)
    ensures Key(t0 + ".0", t1) == Key(t0, t1)
    ensures Key(t0, t1 + ".0") == Key(t0, t1)
  {
    DecimalFirstFieldSameKey(t0, t1);
    DecimalSecondFieldSameKey(t0, t1);
  }

  lemma DecimalFirstFieldSameKey(t0: string, t1: string)
    ensures RemoveDecimalPart(t0 + ".0" + "-" + t1) == RemoveDecimalPart(t0 + "-" + t1)
  {
    var rest := "-" + t1;
    assert t0 + ".0" + "-" + t1 == t0 + (".0" + rest);
    assert t0 + "-" + t1 == t0 + rest;
    calc {
      ReplaceDotZero(t0 + (".0" + rest));
      { ReplaceSplits(t0, ".0" + rest); }
      ReplaceDotZero(t0) + ReplaceDotZero(".0" + rest);
      { ReplaceDropsLeadingMatch(rest); }
      ReplaceDotZero(t0) + ReplaceDotZero(rest);
      { ReplaceSplits(t0, rest); }
      ReplaceDotZero(t0 + rest);
    }
  }

  lemma DecimalSecondFieldSameKey(t0: string, t1: string)
    ensures RemoveDecimalPart(t0 + "-" + (t1 + ".0")) == RemoveDecimalPart(t0 + "-" + t1)
  {
    var joined := t0 + "-" + t1;
    assert t0 + "-" + (t1 + ".0") == joined + ".0";
    calc {
      ReplaceDotZero(joined + ".0");
      { ReplaceSplits(joined, ".0"); }
      ReplaceDotZero(joined) + ReplaceDotZero(".0");
      { assert ".0"[2..] == ""; }
      ReplaceDotZero(joined) + "";
      ReplaceDotZero(joined);
    }
  }
}
