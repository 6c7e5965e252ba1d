/** String helpers standing for the few Python `str` operations the game uses. */
module Text {

  /** `ch.lower()` for ASCII letters. */
  function LowerChar(ch: char): char {
    if 'A' <= ch <= 'Z' then (ch as int + 32) as char else ch
  }

  /** `s.lower()`, restricted to ASCII case folding. */
  function Lower(s: string): (r: string)
    ensures |r| == |s|
    ensures forall i :: 0 <= i < |s| ==> r[i] == LowerChar(s[i])
  {
    seq(|s|, i requires 0 <= i < |s| => LowerChar(s[i]))
  }

  /** `s.replace(".png", "")`: every non-overlapping ".png", scanned left to right, is removed. */
  function StripPng(s: string): string {
    if |s| >= 4 && s[..4] == ".png" then StripPng(s[4..])
    else if s == [] then []
    else [s[0]] + StripPng(s[1..])
  }

  predicate NoChar(s: string, ch: char) {
    forall i :: 0 <= i < |s| ==> s[i] != ch
  }

  /** Number of occurrences of `ch` in `s`; `s.split(ch)` has one more part than this. */
  function CountChar(s: string, ch: char): nat {
    if s == [] then 0 else (if s[0] == ch then 1 else 0) + CountChar(s[1..], ch)
  }

  /** Position of the first `ch` in `s`, or `|s|` when there is none. */
  function FirstIndex(s: string, ch: char): (k: nat)
    ensures k <= |s|
    ensures k < |s| ==> s[k] == ch
    ensures forall i :: 0 <= i < k ==> s[i] != ch
  {
    if s == [] then 0 else if s[0] == ch then 0 else 1 + FirstIndex(s[1..], ch)
  }

  lemma {:induction false} StripPngOfPlain(s: string)
    requires NoChar(s, '.')
    ensures StripPng(s + ".png") == s
  {
    if s == [] {
      assert StripPng(".png"[4..]) == [];
    } else {
      var t := s + ".png";
      assert t[0] == s[0] && s[0] != '.';
      assert t[1..] == s[1..] + ".png";
      StripPngOfPlain(s[1..]);
    }
  }

  lemma {:induction false} CountCharNone(s: string, ch: char)
    requires NoChar(s, ch)
    ensures CountChar(s, ch) == 0
  {
    if s != [] {
      CountCharNone(s[1..], ch);
    }
  }

  lemma {:induction false} CountCharAppend(s: string, t: string, ch: char)
    ensures CountChar(s + t, ch) == CountChar(s, ch) + CountChar(t, ch)
  {
    if s != [] {
      assert (s + t)[1..] == s[1..] + t;
      CountCharAppend(s[1..], t, ch);
    } else {
      assert s + t == t;
    }
  }

  /** `ch in s` exactly when `ch` is counted at least once. */
  lemma {:induction false} CountCharPositive(s: string, ch: char)
    ensures CountChar(s, ch) > 0 <==> ch in s
  {
    if s != [] {
      CountCharPositive(s[1..], ch);
      assert s == [s[0]] + s[1..];
    }
  }

  /** With exactly one `ch` in `s`, it is at the first position found and none follows it. */
  lemma SplitOnlyChar(s: string, ch: char)
    requires CountChar(s, ch) == 1
    ensures FirstIndex(s, ch) < |s| && NoChar(s[FirstIndex(s, ch) + 1..], ch)
  {
    var k := FirstIndex(s, ch);
    CountCharPositive(s, ch);
    var pre, post := s[..k], s[k + 1..];
    assert s == pre + ([ch] + post);
    CountCharNone(pre, ch);
    CountCharAppend(pre, [ch] + post, ch);
    CountCharCons(ch, post);
    CountCharPositive(post, ch);
  }

  lemma CountCharCons(ch: char, s: string)
    ensures CountChar([ch] + s, ch) == 1 + CountChar(s, ch)
  {
    assert ([ch] + s)[1..] == s;
  }
}
