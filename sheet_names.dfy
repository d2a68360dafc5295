/** The sheet name derived from a group key (`sanitize_sheet_name`). */
module SheetNames {

  /** The longest sheet name the output keeps. */
  const MaxNameLength: nat := 31

  // The seven characters the sheet-name regular expression matches:
  // backslash, slash, star, question mark, colon and both square brackets.
  predicate Forbidden(c: char)
  {
    c == '\\' || c == '/' || c == '*' || c == '?' || c == ':' || c == '[' || c == ']'
  }

  // The regular-expression substitution: every forbidden character becomes `_`.
  function ReplaceForbidden(s: string): (r: string)
    ensures |r| == |s|
    ensures forall i :: 0 <= i < |s| ==> r[i] == (if Forbidden(s[i]) then '_' else s[i])
  {
    if s == [] then []
    else [if Forbidden(s[0]) then '_' else s[0]] + ReplaceForbidden(s[1..])
  }

  /** `sanitize_sheet_name`: replace the forbidden characters, then keep at most
      the first 31 characters (`name[:31]`). */
  function Sanitize(name: string): (r: string)
    ensures |r| <= MaxNameLength
    ensures |r| == if |name| < MaxNameLength then |name| else MaxNameLength
    ensures forall i :: 0 <= i < |r| ==> !Forbidden(r[i])
    ensures forall i :: 0 <= i < |r| ==> r[i] == (if Forbidden(name[i]) then '_' else name[i])
  {
    var replaced := ReplaceForbidden(name);
    if |replaced| <= MaxNameLength then replaced else replaced[..MaxNameLength]
  }

  /** Two keys that agree on their first 31 characters share one sheet: the
      truncation merges their rows. */
  lemma SharedPrefixSharesSheet(a: string, b: string)
    requires |a| >= MaxNameLength && |b| >= MaxNameLength
    requires a[..MaxNameLength] == b[..MaxNameLength]
    ensures Sanitize(a) == Sanitize(b)
  {
    var ra, rb := Sanitize(a), Sanitize(b);
    forall i | 0 <= i < MaxNameLength
      ensures ra[i] == rb[i]
    {
      assert a[i] == a[..MaxNameLength][i] == b[..MaxNameLength][i] == b[i];
    }
  }

  /** A name that is short enough and free of forbidden characters is kept as it is. */
  lemma {:induction false} CleanNameUnchanged(name: string)
    requires |name| <= MaxNameLength
    requires forall i :: 0 <= i < |name| ==> !Forbidden(name[i])
    ensures Sanitize(name) == name
  {
    var r := Sanitize(name);
    assert |r| == |name|;
    forall i | 0 <= i < |name| ensures r[i] == name[i] { }
  }

  /** Sanitising twice changes nothing more. */
  lemma SanitizeIdempotent(name: string)
    ensures Sanitize(Sanitize(name)) == Sanitize(name)
  {
    CleanNameUnchanged(Sanitize(name));
  }
}
