/** Exactly which texts are hardware addresses to a discovery, and which they are (network/discovery.py). */
module DiscoveryMac {
  import opened Prelude
  import opened DiscoveryMerge
  import opened ScheduleGrammar
  import Text = ScheduleText

  /** Six pairs of small hexadecimal digits between colons, not all of them zero. */
  predicate IsMac(m: string) {
    && |m| == 17 && m != "00:00:00:00:00:00"
    && forall i :: 0 <= i < 17 ==> if i % 3 == 2 then m[i] == ':' else m[i] in "0123456789abcdef"
  }

  /** The same digit in either case, or a colon written as a colon or a dash. */
  predicate Writes(c: char, d: char) {
    c == d || (d == ':' && c == '-') || ('a' <= d <= 'f' && c as int + 32 == d as int)
  }

  /** The address with blanks around it, in any case, with colons or dashes. */
  ghost predicate WritesMac(s: string, m: string) {
    exists before, body, after ::
      && s == before + body + after && Blank(before) && Blank(after)
      && |body| == |m| && forall i :: 0 <= i < |m| ==> Writes(body[i], m[i])
  }

  lemma HexDigit(c: char)
    ensures IsHex(c) <==> c in "0123456789abcdef"
  {
    var digits := "0123456789abcdef";
    if '0' <= c <= '9' { assert digits[c as int - '0' as int] == c; }
    if 'a' <= c <= 'f' { assert digits[10 + c as int - 'a' as int] == c; }
  }

  function Small(t: string): string {
    seq(|t|, i requires 0 <= i < |t| => if t[i] == '-' then ':' else Lower(t[i]))
  }

  lemma SmallIff(t: string, m: string)
    requires IsMac(m)
    ensures Small(t) == m <==> |t| == 17 && forall i :: 0 <= i < 17 ==> Writes(t[i], m[i])
  {
    forall i | 0 <= i < 17 ensures m[i] == ':' || IsHex(m[i]) { HexDigit(m[i]); }
    if |t| == 17 {
      forall i | 0 <= i < 17 ensures Small(t)[i] == m[i] <==> Writes(t[i], m[i]) {
      }
    }
  }

  lemma {:induction false} EndStripped(s: string) returns (n: nat)
    ensures n <= |s| && StripEnd(s) == s[..n] && forall i :: n <= i < |s| ==> Text.IsSpace(s[i])
  {
    hide Text.IsSpace;
    n := |s|;
    if s != "" && Text.IsSpace(s[|s| - 1]) { n := EndStripped(s[..|s| - 1]); }
  }

  lemma {:induction false} BlankEndIsStripped(body: string, after: string)
    requires Blank(after) && (body == "" || !Text.IsSpace(body[|body| - 1]))
    ensures StripEnd(body + after) == body
  {
    if after == "" {
      assert body + after == body;
    } else {
      SpaceIsBlank(after[|after| - 1]);
      assert (body + after)[..|body + after| - 1] == body + after[..|after| - 1];
      BlankEndIsStripped(body, after[..|after| - 1]);
    }
  }

  lemma WrittenIsNoSpace(c: char, d: char)
    requires Writes(c, d) && (d == ':' || d in "0123456789abcdef")
    ensures !Text.IsSpace(c)
  {
    HexDigit(d);
  }

  lemma WrittenIsRead(s: string, m: string)
    requires IsMac(m) && WritesMac(s, m)
    ensures Small(Strip(s)) == m
  {
    var before, body, after :|
      && s == before + body + after && Blank(before) && Blank(after)
      && |body| == |m| && forall i :: 0 <= i < |m| ==> Writes(body[i], m[i]);
    WrittenIsNoSpace(body[0], m[0]);
    WrittenIsNoSpace(body[16], m[16]);
    hide Small, Blank, Strip, IsMac;
    BodyIsStripped(before, body, after);
    SmallIff(body, m);
  }

  lemma BodyIsStripped(before: string, body: string, after: string)
    requires Blank(before) && Blank(after)
    requires body != "" && !Text.IsSpace(body[0]) && !Text.IsSpace(body[|body| - 1])
    ensures Strip(before + body + after) == body
  {
    hide Blank;
    assert before + body + after == before + (body + after);
    BlankIsSkipped(before, body + after);
    NothingToSkip(body + after);
    BlankEndIsStripped(body, after);
  }

  lemma ReadIsWritten(s: string, m: string)
    requires IsMac(m) && Small(Strip(s)) == m
    ensures WritesMac(s, m)
  {
    var before := SkippedIsBlank(s);
    var kept := Text.SkipSpaces(s);
    var n := EndStripped(kept);
    var after := kept[n..];
    forall i | 0 <= i < |after| { SpaceIsBlank(after[i]); }
    assert Blank(after);
    SmallIff(Strip(s), m);
    hide Strip, Text.SkipSpaces, Blank, Small, IsMac, Writes;
    assert s == before + Strip(s) + after;
  }

  /** A text is a valid hardware address exactly when it writes one, and then it is that one. */
  lemma ValidMacIff(s: string, m: string)
    ensures ValidMac(Some(s)) == Some(m) <==> IsMac(m) && WritesMac(s, m)
    ensures ValidMac(None) == None
  {
    assert ValidMac(Some(s)) == Some(m) <==> IsMac(m) && Small(Strip(s)) == m by {
      forall c ensures IsHex(c) <==> c in "0123456789abcdef" { HexDigit(c); }
      hide Strip;
    }
    hide Strip, Small, ValidMac, WritesMac;
    if IsMac(m) && Small(Strip(s)) == m { ReadIsWritten(s, m); }
    if IsMac(m) && WritesMac(s, m) { WrittenIsRead(s, m); }
  }
}
