/** The watermark label's escaping for ffmpeg's drawtext filter. */
module Drawtext {

  /** JavaScript's `text.replace(/c/g, with)` for a one-character pattern. */
  function ReplaceAll(text: string, c: char, with: string): string {
    if text == [] then [] else (if text[0] == c then with else [text[0]]) + ReplaceAll(text[1..], c, with)
  }

  function EscapeForDrawtext(text: string): string {
    ReplaceAll(ReplaceAll(ReplaceAll(text, '\\', "\\\\"), ':', "\\:"), '\'', "\\'")
  }

  predicate Special(c: char) {
    c == '\\' || c == ':' || c == '\''
  }

  /** The single pass: a backslash before each special character. */
  function EscapeOnePass(text: string): string {
    if text == [] then [] else (if Special(text[0]) then ['\\', text[0]] else [text[0]]) + EscapeOnePass(text[1..])
  }

  function Unescape(out: string): string {
    if out == [] then []
    else if out[0] == '\\' && |out| > 1 then [out[1]] + Unescape(out[2..])
    else [out[0]] + Unescape(out[1..])
  }

  /** How many backslashes stand immediately before position `i`. */
  function BackslashesBefore(out: string, i: nat): nat
    requires i <= |out|
  {
    if i == 0 || out[i - 1] != '\\' then 0 else 1 + BackslashesBefore(out, i - 1)
  }

  lemma {:induction false} ReplaceAppended(a: string, b: string, c: char, with: string)
    ensures ReplaceAll(a + b, c, with) == ReplaceAll(a, c, with) + ReplaceAll(b, c, with)
  {
    if a == [] {
      assert a + b == b;
    } else {
      assert a + b == [a[0]] + (a[1..] + b);
      ReplaceAppended(a[1..], b, c, with);
    }
  }

  lemma EscapeAppended(a: string, b: string)
    ensures EscapeForDrawtext(a + b) == EscapeForDrawtext(a) + EscapeForDrawtext(b)
  {
    ReplaceAppended(a, b, '\\', "\\\\");
    var a1, b1 := ReplaceAll(a, '\\', "\\\\"), ReplaceAll(b, '\\', "\\\\");
    ReplaceAppended(a1, b1, ':', "\\:");
    ReplaceAppended(ReplaceAll(a1, ':', "\\:"), ReplaceAll(b1, ':', "\\:"), '\'', "\\'");
  }

  /** Two characters through the last two replacements. */
  lemma ReplaceTwo(x: char, y: char, c: char, with: string)
    ensures ReplaceAll([x], c, with) == if x == c then with else [x]
    ensures ReplaceAll([x, y], c, with) == (if x == c then with else [x]) + (if y == c then with else [y])
  {
    assert [x, y][1..] == [y] && [y][1..] == [] && [x][1..] == [];
    assert ReplaceAll([y], c, with) == if y == c then with else [y];
  }

  lemma EscapeOne(c: char)
    ensures EscapeForDrawtext([c]) == if Special(c) then ['\\', c] else [c]
  {
    ReplaceTwo(c, c, '\\', "\\\\");
    ReplaceTwo(c, c, ':', "\\:");
    ReplaceTwo(c, c, '\'', "\\'");
    ReplaceTwo('\\', '\\', ':', "\\:");
    ReplaceTwo('\\', '\\', '\'', "\\'");
    ReplaceTwo('\\', ':', '\'', "\\'");
  }

  /**
    The three replacements in a row, each over the output of the one before, are
    one pass over the text: the later ones touch nothing an earlier one inserted.
  */
  lemma {:induction false} EscapeIsOnePass(text: string)
    ensures EscapeForDrawtext(text) == EscapeOnePass(text)
  {
    if text != [] {
      assert text == [text[0]] + text[1..];
      EscapeAppended([text[0]], text[1..]);
      EscapeOne(text[0]);
      EscapeIsOnePass(text[1..]);
    }
  }

  /** Nothing is lost: the label reads back as the text it came from. */
  lemma {:induction false} UnescapeInverts(text: string)
    ensures Unescape(EscapeForDrawtext(text)) == text
  {
    if text != [] {
      assert text == [text[0]] + text[1..];
      EscapeAppended([text[0]], text[1..]);
      EscapeOne(text[0]);
      var rest := EscapeForDrawtext(text[1..]);
      var out := EscapeForDrawtext(text);
      if Special(text[0]) {
        assert out[2..] == rest;
      } else {
        assert out[1..] == rest;
      }
      UnescapeInverts(text[1..]);
    }
  }

  lemma {:induction false} BackslashesLocal(a: string, b: string, i: nat)
    requires i <= |a|
    ensures BackslashesBefore(a + b, i) == BackslashesBefore(a, i)
    decreases i
  {
    if i > 0 {
      BackslashesLocal(a, b, i - 1);
    }
  }

  /**
    Every colon and quote of the label has an odd number of backslashes before it,
    so it is escaped, and the label ends with an even number of them, so nothing
    after the label is.
  */
  lemma {:induction false} ColonsAndQuotesEscaped(text: string)
    ensures var out := EscapeForDrawtext(text);
            && BackslashesBefore(out, |out|) % 2 == 0
            && forall i | 0 <= i < |out| && (out[i] == ':' || out[i] == '\'') :: BackslashesBefore(out, i) % 2 == 1
    decreases |text|
  {
    if text != [] {
      var n := |text| - 1;
      var front, c := EscapeForDrawtext(text[..n]), text[n];
      assert text == text[..n] + [c];
      EscapeAppended(text[..n], [c]);
      EscapeOne(c);
      ColonsAndQuotesEscaped(text[..n]);
      var last := EscapeForDrawtext([c]);
      var out := front + last;
      forall i | 0 <= i <= |front| ensures BackslashesBefore(out, i) == BackslashesBefore(front, i) {
        BackslashesLocal(front, last, i);
      }
      if Special(c) {
        assert BackslashesBefore(out, |front| + 1) == 1 + BackslashesBefore(out, |front|);
      }
    }
  }
}
