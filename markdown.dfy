/**
 * `escape_markdown` of bot.py: every character that Telegram's MarkdownV2
 * treats as markup gets a backslash in front of it; everything else is copied.
 */
module Markdown {
  import Text

  /** The characters `escape_markdown` escapes. The backslash itself is not among them. */
  const SpecialChars: string := "_*[]()~`>#+-=|{}.!"

  predicate IsSpecial(c: char) { c in SpecialChars }

  function CountSpecial(s: string): nat
  {
    if s == [] then 0 else (if IsSpecial(s[0]) then 1 else 0) + CountSpecial(s[1..])
  }

  /**
   * The escaped text: one backslash more per special character, and no special
   * character in it is left without a backslash right before it.
   */
  function Escape(s: string): (r: string)
    ensures |r| == |s| + CountSpecial(s)
    ensures forall i :: 0 <= i < |r| && IsSpecial(r[i]) ==> i > 0 && r[i - 1] == '\\'
  {
    if s == [] then []
    else if IsSpecial(s[0]) then ['\\', s[0]] + Escape(s[1..])
    else [s[0]] + Escape(s[1..])
  }

  /** `escape_markdown(n)` for an integer argument: it is converted with `str` first. */
  function EscapeInt(n: int): string
  {
    Escape(Text.IntToString(n))
  }

  /** Drops the backslash in front of each special character. */
  function Unescape(r: string): string
  {
    if r == [] then []
    else if |r| >= 2 && r[0] == '\\' && IsSpecial(r[1]) then [r[1]] + Unescape(r[2..])
    else [r[0]] + Unescape(r[1..])
  }

  /** Escaping loses nothing: removing the added backslashes restores the text. */
  lemma {:induction false} UnescapeEscape(s: string)
    ensures Unescape(Escape(s)) == s
  {
    if s != [] {
      var rest := Escape(s[1..]);
      UnescapeEscape(s[1..]);
      if IsSpecial(s[0]) {
        assert Escape(s)[2..] == rest;
      } else {
        assert Escape(s)[1..] == rest;
        if s[0] == '\\' && |rest| >= 1 {
          assert !IsSpecial(rest[0]);
        }
      }
    }
  }

  /** Escaping is injective: two different texts never render the same. */
  lemma EscapeInjective(s: string, t: string)
    requires Escape(s) == Escape(t)
    ensures s == t
  {
    UnescapeEscape(s);
    UnescapeEscape(t);
  }

  /** Escaping works character by character, so it distributes over concatenation. */
  lemma {:induction false} EscapeAppend(s: string, t: string)
    ensures Escape(s + t) == Escape(s) + Escape(t)
  {
    if s != [] {
      var head := if IsSpecial(s[0]) then ['\\', s[0]] else [s[0]];
      assert (s + t)[0] == s[0] && (s + t)[1..] == s[1..] + t;
      assert Escape(s + t) == head + Escape(s[1..] + t);
      EscapeAppend(s[1..], t);
      assert head + (Escape(s[1..]) + Escape(t)) == (head + Escape(s[1..])) + Escape(t);
    } else {
      assert s + t == t;
    }
  }

  /** Digits are not special, so a non-negative number is rendered as it is. */
  lemma {:induction false} EscapeDigits(s: string)
    requires Text.AllDigits(s)
    ensures Escape(s) == s
  {
    if s != [] {
      assert !IsSpecial(s[0]);
      EscapeDigits(s[1..]);
    }
  }

  /** A negative number only gets its minus sign escaped. */
  lemma EscapeNegative(n: int)
    requires n < 0
    ensures EscapeInt(n) == "\\-" + Text.NatToString(-n)
  {
    var digits := Text.NatToString(-n);
    EscapeDigits(digits);
    assert Text.IntToString(n) == "-" + digits;
    assert Text.IntToString(n)[1..] == digits;
  }
}
