/** Field-value sanitization: three rewriting passes over a name. */
module Sanitize {

  predicate Safe(c: char) {
    'a' <= c <= 'z' || 'A' <= c <= 'Z' || '0' <= c <= '9' || c in "_:.@-"
  }

  /** The characters the documentation lists as kept. */
  const LOWER := "abcdefghijklmnopqrstuvwxyz"
  const UPPER := "ABCDEFGHIJKLMNOPQRSTUVWXYZ"
  const DIGITS := "0123456789"
  const MARKS := "_:.@-"

  lemma LowerCase(c: char)
    ensures 'a' <= c <= 'z' <==> c in LOWER
  {
    if 'a' <= c <= 'z' {
      assert LOWER[c as int - 97] == c;
    }
  }

  lemma UpperCase(c: char)
    ensures 'A' <= c <= 'Z' <==> c in UPPER
  {
    if 'A' <= c <= 'Z' {
      assert UPPER[c as int - 65] == c;
    }
  }

  lemma DigitCase(c: char)
    ensures '0' <= c <= '9' <==> c in DIGITS
  {
    if '0' <= c <= '9' {
      assert DIGITS[c as int - 48] == c;
    }
  }

  /** These characters are kept and no others. */
  lemma KeptCharacters(c: char)
    ensures Safe(c) <==> c in LOWER || c in UPPER || c in DIGITS || c in MARKS
  {
    LowerCase(c);
    UpperCase(c);
    DigitCase(c);
    hide LOWER, UPPER, DIGITS;
  }

  // ---------- the three passes ----------

  function RemoveParens(s: string): string {
    if s == "" then ""
    else (if s[0] == '(' || s[0] == ')' then "" else [s[0]]) + RemoveParens(s[1..])
  }

  function ReplaceUnsafe(s: string): string {
    if s == "" then "" else [if Safe(s[0]) then s[0] else '_'] + ReplaceUnsafe(s[1..])
  }

  /** The length of the leading run of underscores. */
  function Run(s: string): (n: nat)
    ensures n <= |s|
  {
    if s == "" || s[0] != '_' then 0 else 1 + Run(s[1..])
  }

  /** Every maximal run of two or more underscores becomes one. */
  function Collapse(s: string): string
    decreases |s|
  {
    if s == "" then ""
    else if Run(s) >= 2 then "_" + Collapse(s[Run(s)..])
    else [s[0]] + Collapse(s[1..])
  }

  function SanitizeName(s: string): string {
    Collapse(ReplaceUnsafe(RemoveParens(s)))
  }

  // ---------- one left-to-right pass ----------

  /** The same rewriting in one pass; `after` says the last character written is an underscore. */
  function OnePass(s: string, after: bool): string {
    if s == "" then ""
    else if s[0] == '(' || s[0] == ')' then OnePass(s[1..], after)
    else
      var c := if Safe(s[0]) then s[0] else '_';
      if c == '_' && after then OnePass(s[1..], after)
      else [c] + OnePass(s[1..], c == '_')
  }

  /** Collapsing one character at a time: an underscore is written unless one was just written. */
  function Squeeze(s: string, after: bool): string {
    if s == "" then ""
    else if s[0] == '_' && after then Squeeze(s[1..], after)
    else [s[0]] + Squeeze(s[1..], s[0] == '_')
  }

  lemma {:induction false} SqueezeSkipsRun(s: string)
    ensures Squeeze(s, true) == Squeeze(s[Run(s)..], false)
    ensures Run(s) < |s| ==> s[Run(s)] != '_'
  {
    if s == "" {
    } else if s[0] == '_' {
      SqueezeSkipsRun(s[1..]);
      assert s[Run(s)..] == s[1..][Run(s[1..])..];
    } else {
      assert s[0..] == s;
    }
  }

  lemma {:induction false} CollapseIsSqueeze(s: string)
    ensures Collapse(s) == Squeeze(s, false)
    decreases |s|
  {
    if s == "" {
    } else if Run(s) >= 2 {
      SqueezeSkipsRun(s[1..]);
      assert s[Run(s)..] == s[1..][Run(s[1..])..];
      CollapseIsSqueeze(s[Run(s)..]);
    } else {
      CollapseIsSqueeze(s[1..]);
      if s[0] == '_' {
        SqueezeSkipsRun(s[1..]);
        assert Run(s[1..]) == 0;
        assert s[1..][0..] == s[1..];
      }
    }
  }

  lemma {:induction false} PassesFuse(s: string, after: bool)
    ensures Squeeze(ReplaceUnsafe(RemoveParens(s)), after) == OnePass(s, after)
  {
    if s == "" {
    } else {
      var rest := RemoveParens(s[1..]);
      if s[0] == '(' || s[0] == ')' {
        assert RemoveParens(s) == rest;
        PassesFuse(s[1..], after);
      } else {
        assert RemoveParens(s) == [s[0]] + rest;
        assert ([s[0]] + rest)[1..] == rest;
        var c := if Safe(s[0]) then s[0] else '_';
        assert ReplaceUnsafe(RemoveParens(s)) == [c] + ReplaceUnsafe(rest);
        assert ([c] + ReplaceUnsafe(rest))[1..] == ReplaceUnsafe(rest);
        PassesFuse(s[1..], after);
        PassesFuse(s[1..], c == '_');
      }
    }
  }

  /** The three passes equal one left-to-right pass. */
  lemma {:induction false} SanitizeIsOnePass(s: string)
    ensures SanitizeName(s) == OnePass(s, false)
  {
    CollapseIsSqueeze(ReplaceUnsafe(RemoveParens(s)));
    PassesFuse(s, false);
  }

  // ---------- what the result looks like ----------

  /** Only safe characters and no two adjacent underscores. */
  ghost predicate Clean(s: string) {
    && (forall i :: 0 <= i < |s| ==> Safe(s[i]))
    && (forall i :: 0 <= i < |s| - 1 ==> !(s[i] == '_' && s[i + 1] == '_'))
  }

  lemma {:induction false} OnePassClean(s: string, after: bool)
    ensures Clean(OnePass(s, after))
    ensures |OnePass(s, after)| <= |s|
    ensures after && OnePass(s, after) != "" ==> OnePass(s, after)[0] != '_'
  {
    if s == "" {
    } else if s[0] == '(' || s[0] == ')' {
      OnePassClean(s[1..], after);
    } else {
      var c := if Safe(s[0]) then s[0] else '_';
      OnePassClean(s[1..], after);
      OnePassClean(s[1..], c == '_');
    }
  }

  lemma {:induction false} OnePassKeepsClean(s: string, after: bool)
    requires Clean(s) && !(after && s != "" && s[0] == '_')
    ensures OnePass(s, after) == s
  {
    if s == "" {
    } else {
      assert Safe(s[0]);
      assert forall i :: 0 <= i < |s[1..]| ==> s[1..][i] == s[i + 1];
      assert |s| > 1 ==> !(s[0] == '_' && s[0 + 1] == '_');
      OnePassKeepsClean(s[1..], s[0] == '_');
    }
  }

  /** The output is clean and never longer; a name is left alone exactly when it is already clean. */
  lemma {:induction false} SanitizeCleans(s: string)
    ensures Clean(SanitizeName(s))
    ensures |SanitizeName(s)| <= |s|
    ensures SanitizeName(s) == s <==> Clean(s)
  {
    SanitizeIsOnePass(s);
    OnePassClean(s, false);
    if Clean(s) {
      OnePassKeepsClean(s, false);
    }
  }

  /** What becomes of each character: parentheses go, a safe one stays, any other becomes an underscore. */
  lemma SingleCharacter(c: char)
    ensures SanitizeName([c]) == if c == '(' || c == ')' then "" else if Safe(c) then [c] else "_"
  {
    SanitizeIsOnePass([c]);
    assert [c][1..] == "";
    assert OnePass("", true) == "" && OnePass("", false) == "";
  }

  lemma {:induction false} SanitizeIdempotent(s: string)
    ensures SanitizeName(SanitizeName(s)) == SanitizeName(s)
  {
    SanitizeCleans(s);
    SanitizeCleans(SanitizeName(s));
  }

  // ---------- sensor filters ----------

  /** A sensor passes the filter when some configured name sanitizes to the same text. */
  predicate Included(configured: seq<string>, reported: string) {
    exists i :: 0 <= i < |configured| && SanitizeName(configured[i]) == SanitizeName(reported)
  }

  method ShouldInclude(configured: seq<string>, reported: string) returns (included: bool)
    ensures included <==> Included(configured, reported)
  {
    var sanitized := SanitizeName(reported);
    for i := 0 to |configured|
      invariant forall j :: 0 <= j < i ==> SanitizeName(configured[j]) != sanitized
    {
      if SanitizeName(configured[i]) == sanitized {
        return true;
      }
    }
    included := false;
  }

  /** The filter gives the same answer when either side is sanitized beforehand. */
  lemma {:induction false} FilterIgnoresSanitizing(configured: seq<string>, reported: string)
    ensures Included(configured, SanitizeName(reported)) == Included(configured, reported)
    ensures Included(seq(|configured|, i requires 0 <= i < |configured| => SanitizeName(configured[i])), reported)
         == Included(configured, reported)
  {
    SanitizeIdempotent(reported);
    var all := seq(|configured|, i requires 0 <= i < |configured| => SanitizeName(configured[i]));
    forall i | 0 <= i < |configured|
      ensures SanitizeName(all[i]) == SanitizeName(configured[i])
    {
      SanitizeIdempotent(configured[i]);
    }
    if Included(configured, reported) {
      var i :| 0 <= i < |configured| && SanitizeName(configured[i]) == SanitizeName(reported);
      assert SanitizeName(all[i]) == SanitizeName(reported);
    }
  }
}
