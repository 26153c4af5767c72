/** Exactly which texts are schedules, and what they mean (manager/schedules.py). */
module ScheduleGrammar {
  import opened Prelude
  import opened Schedules
  import opened ScheduleText

  // --------------------------------------------------------------- clocks

  predicate Digits(s: string) {
    s != "" && forall i :: 0 <= i < |s| ==> s[i] in "0123456789"
  }

  /** The number that decimal digits spell. */
  function Number(s: string): int {
    if s == "" then 0 else 10 * Number(s[..|s| - 1]) + (s[|s| - 1] as int - '0' as int)
  }

  predicate Blank(s: string) {
    forall i :: 0 <= i < |s| ==> s[i] in " \t\n\r\U{000B}\U{000C}\U{001C}\U{001D}\U{001E}\U{001F}"
  }

  /** An hour of one or two digits, a colon, and a minute of two. */
  predicate Spells(t: string, m: MinuteOfDay) {
    && 4 <= |t| <= 5 && t[|t| - 3] == ':'
    && (var hour, minute := t[..|t| - 3], t[|t| - 2..];
        && Digits(hour) && Digits(minute) && Number(hour) <= 23 && Number(minute) <= 59
        && m == 60 * Number(hour) + Number(minute))
  }

  lemma OneDigit(s: string)
    requires |s| == 1 && IsDigit(s[0])
    ensures Digits(s) && Number(s) == DigitValue(s[0])
  {
    assert s[..0] == "";
  }

  lemma TwoDigits(s: string)
    requires |s| == 2 && IsDigit(s[0]) && IsDigit(s[1])
    ensures Digits(s) && Number(s) == 10 * DigitValue(s[0]) + DigitValue(s[1])
  {
    OneDigit(s[..1]);
  }

  lemma DigitIsDigit(c: char)
    ensures IsDigit(c) <==> c in "0123456789"
  {
    if IsDigit(c) { assert "0123456789"[c as int - '0' as int] == c; }
  }

  lemma SpaceIsBlank(c: char)
    ensures IsSpace(c) <==> c in " \t\n\r\U{000B}\U{000C}\U{001C}\U{001D}\U{001E}\U{001F}"
  {
    assert '\n' as int == 10 && '\r' as int == 13 && '\t' as int == 9;
    assert '\U{000B}' as int == 11 && '\U{000C}' as int == 12;
    assert '\U{001C}' as int == 28 && '\U{001D}' as int == 29 && '\U{001E}' as int == 30 && '\U{001F}' as int == 31;
  }

  lemma ClockOfFive(t: string, rest: string)
    requires |t| == 5 && IsDigit(t[0]) && IsDigit(t[1]) && t[2] == ':' && IsDigit(t[3]) && IsDigit(t[4])
    ensures ReadClock(t + rest).Some?
    ensures var c := ReadClock(t + rest).value; c.hour == Number(t[..2]) && c.minute == Number(t[3..]) && c.rest == rest
  {
    TwoDigits(t[..2]);
    TwoDigits(t[3..]);
    assert (t + rest)[5..] == rest;
  }

  lemma ClockOfFour(t: string, rest: string)
    requires |t| == 4 && IsDigit(t[0]) && t[1] == ':' && IsDigit(t[2]) && IsDigit(t[3])
    ensures ReadClock(t + rest).Some?
    ensures var c := ReadClock(t + rest).value; c.hour == Number(t[..1]) && c.minute == Number(t[2..]) && c.rest == rest
  {
    OneDigit(t[..1]);
    TwoDigits(t[2..]);
    assert (t + rest)[4..] == rest;
  }

  /** A spelled clock in front of other text is read as it is spelled. */
  lemma SpelledIsRead(t: string, m: MinuteOfDay, rest: string)
    requires Spells(t, m)
    ensures ReadClock(t + rest) == Some(Clock(m / 60, m % 60, rest))
    ensures SkipSpaces(t + rest) == t + rest
  {
    var n := |t|;
    var hour, minute := t[..n - 3], t[n - 2..];
    assert hour[0] == t[0] && (n == 5 ==> hour[1] == t[1]) && minute[0] == t[n - 2] && minute[1] == t[n - 1];
    DigitIsDigit(t[0]);
    DigitIsDigit(t[1]);
    DigitIsDigit(t[n - 2]);
    DigitIsDigit(t[n - 1]);
    hide ReadClock, Number, DigitValue;
    if n == 5 { ClockOfFive(t, rest); } else { ClockOfFour(t, rest); }
  }

  /** What is read was spelled in front of the rest. */
  lemma ReadIsSpelled(s: string, c: Clock) returns (t: string)
    requires ReadClock(s) == Some(c) && c.hour <= 23 && c.minute <= 59
    ensures s == t + c.rest && Spells(t, 60 * c.hour + c.minute)
  {
    var n := |s| - |c.rest|;
    t := s[..n];
    if n == 5 {
      TwoDigits(t[..2]);
      TwoDigits(t[3..]);
    } else {
      OneDigit(t[..1]);
      TwoDigits(t[2..]);
    }
  }

  // -------------------------------------------------------------- windows

  lemma {:induction false} BlankIsSkipped(blank: string, rest: string)
    requires Blank(blank)
    ensures SkipSpaces(blank + rest) == SkipSpaces(rest)
  {
    if blank == "" {
      assert blank + rest == rest;
    } else {
      SpaceIsBlank(blank[0]);
      BlankIsSkipped(blank[1..], rest);
      assert (blank + rest)[1..] == blank[1..] + rest;
    }
  }

  lemma {:induction false} SkippedIsBlank(s: string) returns (blank: string)
    ensures Blank(blank) && s == blank + SkipSpaces(s)
  {
    if s != "" && IsSpace(s[0]) {
      SpaceIsBlank(s[0]);
      var more := SkippedIsBlank(s[1..]);
      blank := [s[0]] + more;
    } else {
      blank := "";
    }
  }

  /** Two clocks around a dash, with blanks wherever they are allowed. */
  function Spelling(b0: string, t0: string, b1: string, b2: string, t1: string, b3: string): string {
    b0 + (t0 + (b1 + ("-" + (b2 + (t1 + b3)))))
  }

  ghost predicate SpellsWindow(part: string, w: Window) {
    exists b0, t0, b1, b2, t1, b3 ::
      && part == Spelling(b0, t0, b1, b2, t1, b3)
      && Blank(b0) && Blank(b1) && Blank(b2) && Blank(b3) && Spells(t0, w.start) && Spells(t1, w.end)
  }

  lemma SpelledWindowIsRead(w: Window, b0: string, t0: string, b1: string, b2: string, t1: string, b3: string)
    requires Blank(b0) && Blank(b1) && Blank(b2) && Blank(b3) && Spells(t0, w.start) && Spells(t1, w.end)
    ensures ReadWindow(Spelling(b0, t0, b1, b2, t1, b3)) == Some(w)
  {
    hide Spells, Blank, ReadClock;
    var tail := b2 + (t1 + b3);
    BlankIsSkipped(b0, t0 + (b1 + ("-" + tail)));
    SpelledIsRead(t0, w.start, b1 + ("-" + tail));
    BlankIsSkipped(b1, "-" + tail);
    assert SkipSpaces("-" + tail) == "-" + tail && ("-" + tail)[1..] == tail;
    BlankIsSkipped(b2, t1 + b3);
    SpelledIsRead(t1, w.end, b3);
    BlankIsSkipped(b3, "");
    assert b3 + "" == b3;
  }

  lemma ReadWindowIsSpelled(part: string, w: Window)
    requires ReadWindow(part) == Some(w)
    ensures SpellsWindow(part, w)
  {
    hide Spells, Blank, ReadClock, SkipSpaces, SpellsWindow;
    NothingToSkip("");
    var b0 := SkippedIsBlank(part);
    var first := ReadClock(SkipSpaces(part)).value;
    var t0 := ReadIsSpelled(SkipSpaces(part), first);
    var b1 := SkippedIsBlank(first.rest);
    var dash := SkipSpaces(first.rest);
    assert dash == "-" + dash[1..];
    var b2 := SkippedIsBlank(dash[1..]);
    var second := ReadClock(SkipSpaces(dash[1..])).value;
    var t1 := ReadIsSpelled(SkipSpaces(dash[1..]), second);
    var b3 := SkippedIsBlank(second.rest);
    assert b3 + "" == b3;
    SpelledSoFar(part, w, b0, t0, b1, b2, t1, b3);
  }

  lemma SpelledSoFar(part: string, w: Window, b0: string, t0: string, b1: string, b2: string, t1: string, b3: string)
    requires part == Spelling(b0, t0, b1, b2, t1, b3)
    requires Blank(b0) && Blank(b1) && Blank(b2) && Blank(b3) && Spells(t0, w.start) && Spells(t1, w.end)
    ensures SpellsWindow(part, w)
  {
  }

  lemma NothingToSkip(s: string)
    requires s == "" || !IsSpace(s[0])
    ensures SkipSpaces(s) == s
  {
  }

  /** A part is a window exactly when it spells one, and then it is that one. */
  lemma ReadWindowIff(part: string, w: Window)
    ensures ReadWindow(part) == Some(w) <==> SpellsWindow(part, w)
  {
    hide ReadWindow;
    if ReadWindow(part) == Some(w) { ReadWindowIsSpelled(part, w); }
    if SpellsWindow(part, w) {
      var b0, t0, b1, b2, t1, b3 :|
        && part == Spelling(b0, t0, b1, b2, t1, b3)
        && Blank(b0) && Blank(b1) && Blank(b2) && Blank(b3) && Spells(t0, w.start) && Spells(t1, w.end);
      SpelledWindowIsRead(w, b0, t0, b1, b2, t1, b3);
    }
  }

  // ------------------------------------------------------------ whole texts

  lemma {:induction false} JoinSplit(text: string, sep: char)
    ensures Join(Split(text, sep), sep) == text
  {
    if text != "" {
      var rest := Split(text[1..], sep);
      JoinSplit(text[1..], sep);
      if text[0] == sep {
        assert ([""] + rest)[1..] == rest;
      } else {
        var pieces := [[text[0]] + rest[0]] + rest[1..];
        assert pieces[1..] == rest[1..];
      }
    }
  }

  lemma {:induction false} ReadAllIff(parts: seq<string>, ws: seq<Window>)
    ensures ReadAll(parts) == Some(ws) <==> |parts| == |ws| && forall i :: 0 <= i < |parts| ==> ReadWindow(parts[i]) == Some(ws[i])
  {
    hide ReadWindow;
    if parts != [] && ws != [] {
      var n := |parts| - 1;
      ReadAllIff(parts[..n], ws[..|ws| - 1]);
      if ReadAll(parts) == Some(ws) {
        assert ws[..|ws| - 1] == ReadAll(parts[..n]).value;
        forall i | 0 <= i < |parts| ensures ReadWindow(parts[i]) == Some(ws[i]) {
          if i < n { assert parts[..n][i] == parts[i]; }
        }
      }
      if |parts| == |ws| && forall i :: 0 <= i < |parts| ==> ReadWindow(parts[i]) == Some(ws[i]) {
        assert ReadAll(parts[..n]) == Some(ws[..n]);
        assert ws == ws[..n] + [ws[n]];
      }
    }
  }

  /** One to sixteen parts between semicolons, each of which spells its window. */
  ghost predicate SpellsSchedule(value: string, ws: seq<Window>) {
    exists parts: seq<string> ::
      && 1 <= |parts| <= 16 && |parts| == |ws| && value == Join(parts, ';')
      && forall i :: 0 <= i < |parts| ==> ';' !in parts[i] && SpellsWindow(parts[i], ws[i])
  }

  /** A text is accepted exactly when it spells windows, and then it means those. */
  lemma WrittenIff(value: string, ws: seq<Window>)
    ensures Written(value) == Some(ws) <==> SpellsSchedule(value, ws)
  {
    hide ReadWindow, SpellsWindow, ReadAll;
    if Written(value) == Some(ws) {
      var parts := Split(value, ';');
      JoinSplit(value, ';');
      ReadAllIff(parts, ws);
      forall i | 0 <= i < |parts| ensures SpellsWindow(parts[i], ws[i]) { ReadWindowIff(parts[i], ws[i]); }
    }
    if SpellsSchedule(value, ws) {
      var parts: seq<string> :|
        && 1 <= |parts| <= 16 && |parts| == |ws| && value == Join(parts, ';')
        && forall i :: 0 <= i < |parts| ==> ';' !in parts[i] && SpellsWindow(parts[i], ws[i]);
      SplitJoin(parts, ';');
      forall i | 0 <= i < |parts| ensures ReadWindow(parts[i]) == Some(ws[i]) { ReadWindowIff(parts[i], ws[i]); }
      ReadAllIff(parts, ws);
    }
  }
}
