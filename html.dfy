/** `escapeHtml`, used by both front-ends before a value is placed in markup: each of
    the five characters & < > " ' becomes its character reference. */
module Html {
  import opened Common

  /** The characters the replacement pattern /[&<>"']/g matches. */
  predicate IsSpecial(c: char) {
    c == '&' || c == '<' || c == '>' || c == '"' || c == '\''
  }

  /** The replacement table of one matched character. */
  function EscapeChar(c: char): (r: string)
    ensures IsSpecial(c) ==> |r| > 1 && r[0] == '&' && r[|r| - 1] == ';'
    ensures !IsSpecial(c) ==> r == [c]
  {
    match c
    case '&' => "&amp;"
    case '<' => "&lt;"
    case '>' => "&gt;"
    case '"' => "&quot;"
    case '\'' => "&#39;"
    case _ => [c]
  }

  function EscapeHtml(s: string): (r: string)
    ensures |r| >= |s|
    ensures forall i :: 0 <= i < |r| ==> r[i] == '&' || !IsSpecial(r[i])
  {
    if s == [] then [] else EscapeChar(s[0]) + EscapeHtml(s[1..])
  }

  /** The character and the length of the reference `s` starts with, when it starts
      with one of the five `EscapeHtml` produces. */
  function RefAt(s: string): (r: Option<(char, nat)>)
    ensures r.Some? ==> 0 < r.value.1 <= |s|
  {
    if s == [] || s[0] != '&' then None
    else if |s| >= 5 && s[..5] == "&amp;" then Some(('&', 5))
    else if |s| >= 4 && s[..4] == "&lt;" then Some(('<', 4))
    else if |s| >= 4 && s[..4] == "&gt;" then Some(('>', 4))
    else if |s| >= 6 && s[..6] == "&quot;" then Some(('"', 6))
    else if |s| >= 5 && s[..5] == "&#39;" then Some(('\'', 5))
    else None
  }

  /** Decoding of the five references `EscapeHtml` produces; any other '&' is kept. */
  function Unescape(s: string): string
    decreases |s|
  {
    if s == [] then []
    else match RefAt(s)
      case Some((c, n)) => [c] + Unescape(s[n..])
      case None => [s[0]] + Unescape(s[1..])
  }

  /** The escaped form of a character is recognised as exactly that character. */
  lemma RefAtEscape(c: char, t: string)
    ensures IsSpecial(c) ==> RefAt(EscapeChar(c) + t) == Some((c, |EscapeChar(c)|))
    ensures !IsSpecial(c) ==> RefAt(EscapeChar(c) + t) == None
  {
    var e := EscapeChar(c);
    var s := e + t;
    assert s[..|e|] == e;
    if c == '<' {
      assert s[1] == 'l';
    } else if c == '>' {
      assert s[1] == 'g';
    } else if c == '"' {
      assert s[1] == 'q';
    } else if c == '\'' {
      assert s[1] == '#';
    }
  }

  lemma UnescapeChar(c: char, t: string)
    ensures Unescape(EscapeChar(c) + t) == [c] + Unescape(t)
  {
    var s := EscapeChar(c) + t;
    RefAtEscape(c, t);
    assert s[|EscapeChar(c)|..] == t;
    if !IsSpecial(c) {
      assert s[0] == c && s[1..] == t;
    }
  }

  /** Escaping loses nothing: decoding the escaped text gives the original back. */
  lemma {:induction false} UnescapeEscape(s: string)
    ensures Unescape(EscapeHtml(s)) == s
  {
    if s != [] {
      UnescapeChar(s[0], EscapeHtml(s[1..]));
      UnescapeEscape(s[1..]);
      assert s == [s[0]] + s[1..];
    }
  }

  /** Escaping works character by character, so it distributes over concatenation. */
  lemma {:induction false} EscapeConcat(a: string, b: string)
    ensures EscapeHtml(a + b) == EscapeHtml(a) + EscapeHtml(b)
  {
    if a == [] {
      assert a + b == b;
    } else {
      assert (a + b)[0] == a[0];
      assert (a + b)[1..] == a[1..] + b;
      EscapeConcat(a[1..], b);
    }
  }

  /** Text without any of the five characters is left exactly as it is, and text with
      one of them is always changed (it grows). */
  lemma {:induction false} EscapeUnchangedIff(s: string)
    ensures EscapeHtml(s) == s <==> forall i :: 0 <= i < |s| ==> !IsSpecial(s[i])
    ensures (exists i :: 0 <= i < |s| && IsSpecial(s[i])) ==> |EscapeHtml(s)| > |s|
  {
    if s != [] {
      EscapeUnchangedIff(s[1..]);
      assert forall i :: 1 <= i < |s| ==> s[i] == s[1..][i - 1];
      if IsSpecial(s[0]) {
        assert |EscapeHtml(s)| > |s|;
      } else if exists i :: 0 <= i < |s| && IsSpecial(s[i]) {
        var i :| 0 <= i < |s| && IsSpecial(s[i]);
        assert IsSpecial(s[1..][i - 1]);
      }
    }
  }

  /** Escaped text that had a special character contains an '&'. */
  lemma {:induction false} EscapeHasAmpersand(s: string) returns (k: nat)
    requires exists i :: 0 <= i < |s| && IsSpecial(s[i])
    ensures k < |EscapeHtml(s)| && EscapeHtml(s)[k] == '&'
  {
    if IsSpecial(s[0]) {
      k := 0;
    } else {
      var i :| 0 <= i < |s| && IsSpecial(s[i]);
      assert IsSpecial(s[1..][i - 1]);
      var k1 := EscapeHasAmpersand(s[1..]);
      k := k1 + 1;
    }
  }

  /** Escaping twice is not escaping once: the '&' of a reference is escaped again. */
  lemma DoubleEscapeDiffers(s: string)
    requires exists i :: 0 <= i < |s| && IsSpecial(s[i])
    ensures EscapeHtml(EscapeHtml(s)) != EscapeHtml(s)
  {
    var k := EscapeHasAmpersand(s);
    var e := EscapeHtml(s);
    assert IsSpecial(e[k]);
    EscapeUnchangedIff(e);
  }
}
