/**
 * `safe_filename`: the family name made usable as a file name by replacing
 * every maximal run of the characters  \ / : " * ? < > |  with one '_'
 * (the regular expression `[\\/:"*?<>|]+` substituted by '_').
 */
module Sanitize {

  /** The character class of the substitution. */
  predicate Forbidden(c: char) {
    c == '\\' || c == '/' || c == ':' || c == '"' || c == '*'
    || c == '?' || c == '<' || c == '>' || c == '|'
  }

  /** No forbidden character occurs in `s`. */
  predicate Clean(s: string) {
    forall c | c in s :: !Forbidden(c)
  }

  /** What is left of `s` once the run of forbidden characters at its front is consumed. */
  function SkipRun(s: string): (t: string)
    ensures |t| <= |s| && t == s[|s| - |t|..]
    ensures t == [] || !Forbidden(t[0])
    ensures forall i | 0 <= i < |s| - |t| :: Forbidden(s[i])
  {
    if s != [] && Forbidden(s[0]) then SkipRun(s[1..]) else s
  }

  /**
   * The substitution as the regular-expression engine performs it, left to right:
   * a match is the longest run of forbidden characters starting at the current
   * position, and it is replaced by a single '_'.
   */
  function SafeFilename(s: string): (r: string)
    ensures |r| <= |s|
    ensures Clean(r)
    decreases |s|
  {
    if s == [] then ""
    else if Forbidden(s[0]) then
      "_" + SafeFilename(SkipRun(s[1..]))
    else
      [s[0]] + SafeFilename(s[1..])
  }

  /**
   * An independent, character-at-a-time reading of the same substitution:
   * a permitted character is copied, the first forbidden character of a run
   * becomes '_', and every further character of that run is dropped.
   * `inRun` says whether the previous character was forbidden.
   */
  function Scan(s: string, inRun: bool): string {
    if s == [] then ""
    else if Forbidden(s[0]) then (if inRun then "" else "_") + Scan(s[1..], true)
    else [s[0]] + Scan(s[1..], false)
  }

  lemma {:induction false} ScanInsideRun(s: string)
    ensures Scan(s, true) == Scan(SkipRun(s), false)
  {
    if s != [] && Forbidden(s[0]) {
      ScanInsideRun(s[1..]);
    }
  }

  /** Every maximal run becomes exactly one '_'; everything else is copied in order. */
  lemma {:induction false} SafeFilenameIsScan(s: string)
    ensures SafeFilename(s) == Scan(s, false)
    decreases |s|
  {
    if s == [] {
    } else if Forbidden(s[0]) {
      ScanInsideRun(s[1..]);
      SafeFilenameIsScan(SkipRun(s[1..]));
    } else {
      SafeFilenameIsScan(s[1..]);
    }
  }

  /** A name without forbidden characters is left as it is. */
  lemma {:induction false} CleanUnchanged(s: string)
    requires Clean(s)
    ensures SafeFilename(s) == s
  {
    if s != [] {
      assert !Forbidden(s[0]);
      CleanUnchanged(s[1..]);
    }
  }

  /** A clean front part is copied, and the rest is sanitised on its own. */
  lemma {:induction false} CleanPrefixCopied(a: string, s: string)
    requires Clean(a)
    ensures SafeFilename(a + s) == a + SafeFilename(s)
  {
    if a == [] {
      assert a + s == s;
    } else {
      assert (a + s)[0] == a[0] && !Forbidden(a[0]);
      assert (a + s)[1..] == a[1..] + s;
      assert forall i | 0 <= i < |a| - 1 :: a[1..][i] == a[i + 1];
      CleanPrefixCopied(a[1..], s);
      assert SafeFilename(a + s) == [a[0]] + SafeFilename(a[1..] + s);
      assert [a[0]] + (a[1..] + SafeFilename(s)) == a + SafeFilename(s);
    }
  }

  /** Sanitising twice gives the same file name as sanitising once. */
  lemma SafeFilenameIdempotent(s: string)
    ensures SafeFilename(SafeFilename(s)) == SafeFilename(s)
  {
    CleanUnchanged(SafeFilename(s));
  }

  /** The characters that are neither forbidden nor the replacement '_'. */
  function Plain(s: string): string {
    if s == [] then ""
    else if Forbidden(s[0]) || s[0] == '_' then Plain(s[1..])
    else [s[0]] + Plain(s[1..])
  }

  lemma {:induction false} PlainOfRun(s: string)
    ensures Plain(SkipRun(s)) == Plain(s)
  {
    if s != [] && Forbidden(s[0]) {
      PlainOfRun(s[1..]);
    }
  }

  /** Every other character survives, and in its original order. */
  lemma {:induction false} SafeFilenameKeepsPlain(s: string)
    ensures Plain(SafeFilename(s)) == Plain(s)
    decreases |s|
  {
    if s == [] {
    } else if Forbidden(s[0]) {
      var rest := SkipRun(s[1..]);
      SafeFilenameKeepsPlain(rest);
      PlainOfRun(s[1..]);
      assert ("_" + SafeFilename(rest))[1..] == SafeFilename(rest);
    } else {
      SafeFilenameKeepsPlain(s[1..]);
      assert ([s[0]] + SafeFilename(s[1..]))[1..] == SafeFilename(s[1..]);
    }
  }
}
