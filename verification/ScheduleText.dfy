/** Schedule text, its normal form and the windows it means (manager/schedules.py). */
module ScheduleText {
  import opened Prelude
  import opened Ordering
  import opened Schedules

  const MAX_WINDOWS := 16

  // ------------------------------------------------------------ split, join

  /** text.split(sep): at least one piece, and no piece contains sep. */
  function Split(text: string, sep: char): (pieces: seq<string>)
    ensures |pieces| >= 1
    ensures forall i :: 0 <= i < |pieces| ==> sep !in pieces[i]
  {
    if text == "" then [""]
    else
      var rest := Split(text[1..], sep);
      if text[0] == sep then [""] + rest else [[text[0]] + rest[0]] + rest[1..]
  }

  /** sep.join(pieces) */
  function Join(pieces: seq<string>, sep: char): string {
    if pieces == [] then ""
    else if |pieces| == 1 then pieces[0]
    else pieces[0] + [sep] + Join(pieces[1..], sep)
  }

  lemma {:induction false} SplitPrefix(piece: string, text: string, sep: char)
    requires sep !in piece
    ensures Split(piece + text, sep) == [piece + Split(text, sep)[0]] + Split(text, sep)[1..]
  {
    var pieces := Split(text, sep);
    if piece == "" {
      assert piece + text == text && piece + pieces[0] == pieces[0];
      assert [pieces[0]] + pieces[1..] == pieces;
    } else {
      assert (piece + text)[1..] == piece[1..] + text;
      SplitPrefix(piece[1..], text, sep);
      assert [piece[0]] + (piece[1..] + Split(text, sep)[0]) == piece + Split(text, sep)[0];
    }
  }

  lemma {:induction false} SplitJoin(pieces: seq<string>, sep: char)
    requires pieces != []
    requires forall i :: 0 <= i < |pieces| ==> sep !in pieces[i]
    ensures Split(Join(pieces, sep), sep) == pieces
  {
    if |pieces| == 1 {
      SplitPrefix(pieces[0], "", sep);
      assert pieces[0] + "" == pieces[0];
    } else {
      var rest := Join(pieces[1..], sep);
      SplitJoin(pieces[1..], sep);
      assert Join(pieces, sep) == pieces[0] + ([sep] + rest);
      assert ([sep] + rest)[1..] == rest;
      SplitPrefix(pieces[0], [sep] + rest, sep);
      assert pieces[0] + "" == pieces[0];
    }
  }

  lemma {:induction false} JoinLength(pieces: seq<string>, sep: char, width: nat)
    requires pieces != [] && forall i :: 0 <= i < |pieces| ==> |pieces[i]| == width
    ensures |Join(pieces, sep)| == (width + 1) * |pieces| - 1
  {
    if |pieces| > 1 {
      JoinLength(pieces[1..], sep, width);
    }
  }

  // -------------------------------------------------------- HH:MM-HH:MM

  predicate IsSpace(c: char) {
    c == ' ' || 9 <= c as int <= 13 || 28 <= c as int <= 31
  }

  predicate IsDigit(c: char) {
    '0' <= c <= '9'
  }

  function DigitValue(c: char): nat {
    if IsDigit(c) then c as int - '0' as int else 0
  }

  function SkipSpaces(s: string): string {
    if s != "" && IsSpace(s[0]) then SkipSpaces(s[1..]) else s
  }

  datatype Clock = Clock(hour: nat, minute: nat, rest: string)

  /** (\d{1,2}):(\d{2}) at the front of s. */
  function ReadClock(s: string): Option<Clock> {
    if |s| >= 5 && IsDigit(s[0]) && IsDigit(s[1]) && s[2] == ':' && IsDigit(s[3]) && IsDigit(s[4]) then
      Some(Clock(10 * DigitValue(s[0]) + DigitValue(s[1]), 10 * DigitValue(s[3]) + DigitValue(s[4]), s[5..]))
    else if |s| >= 4 && IsDigit(s[0]) && s[1] == ':' && IsDigit(s[2]) && IsDigit(s[3]) then
      Some(Clock(DigitValue(s[0]), 10 * DigitValue(s[2]) + DigitValue(s[3]), s[4..]))
    else None
  }

  /** One window of user text; None stands for the ValidationError of either check. */
  function ReadWindow(part: string): Option<Window> {
    var first := ReadClock(SkipSpaces(part));
    if first.None? then None else
    var dash := SkipSpaces(first.value.rest);
    if dash == "" || dash[0] != '-' then None else
    var second := ReadClock(SkipSpaces(dash[1..]));
    if second.None? || SkipSpaces(second.value.rest) != "" then None else
    var (a, b) := (first.value, second.value);
    if a.hour > 23 || b.hour > 23 || a.minute > 59 || b.minute > 59 then None
    else Some(Window(60 * a.hour + a.minute, 60 * b.hour + b.minute))
  }

  function Digit(d: nat): (c: char)
    requires d < 10
    ensures IsDigit(c) && DigitValue(c) == d
  {
    ('0' as int + d) as char
  }

  /** f"{h:02d}:{m:02d}" */
  function ClockText(m: MinuteOfDay): string {
    [Digit(m / 60 / 10), Digit(m / 60 % 10), ':', Digit(m % 60 / 10), Digit(m % 60 % 10)]
  }

  function WindowText(w: Window): string {
    ClockText(w.start) + ['-'] + ClockText(w.end)
  }

  lemma ReadClockText(m: MinuteOfDay, rest: string)
    ensures ReadClock(ClockText(m) + rest) == Some(Clock(m / 60, m % 60, rest))
    ensures SkipSpaces(ClockText(m) + rest) == ClockText(m) + rest
  {
  }

  lemma WindowTextShape(w: Window)
    ensures |WindowText(w)| == 11 && ';' !in WindowText(w)
  {
  }

  /** The formatted text of a window reads back as that window. */
  lemma ReadWindowText(w: Window)
    ensures ReadWindow(WindowText(w)) == Some(w)
  {
    hide ReadClock, ClockText;
    var part := WindowText(w);
    var tail := ['-'] + ClockText(w.end);
    assert part == ClockText(w.start) + tail;
    ReadClockText(w.start, tail);
    assert ReadClock(SkipSpaces(part)) == Some(Clock(w.start / 60, w.start % 60, tail));
    assert SkipSpaces(tail) == tail;
    assert tail[1..] == ClockText(w.end) == ClockText(w.end) + "";
    ReadClockText(w.end, "");
    assert ReadClock(SkipSpaces(tail[1..])) == Some(Clock(w.end / 60, w.end % 60, ""));
  }

  // ------------------------------------------------------------ normal form

  /** The windows of all parts, or None when some part is invalid. */
  function ReadAll(parts: seq<string>): Option<seq<Window>> {
    if parts == [] then Some([])
    else
      var init, last := ReadAll(parts[..|parts| - 1]), ReadWindow(parts[|parts| - 1]);
      if init.None? || last.None? then None else Some(init.value + [last.value])
  }

  function Texts(ws: seq<Window>): seq<string> {
    seq(|ws|, i requires 0 <= i < |ws| => WindowText(ws[i]))
  }

  /** What the user wrote, window by window. */
  function Written(value: string): Option<seq<Window>> {
    var parts := Split(value, ';');
    if |parts| > MAX_WINDOWS then None else ReadAll(parts)
  }

  function Normalize(value: string): Option<string> {
    var ws := Written(value);
    if ws.None? then None else Some(Join(Dedup(Texts(ws.value)), ';'))
  }

  method NormalizeWindows(value: string) returns (r: Option<string>)
    ensures r == Normalize(value)
  {
    hide ReadWindow, WindowText;
    var parts := Split(value, ';');
    if |parts| > MAX_WINDOWS {
      return None;
    }
    var result: seq<string> := [];
    ghost var ws: seq<Window> := [];
    for i := 0 to |parts|
      invariant ReadAll(parts[..i]) == Some(ws)
      invariant result == Texts(ws)
    {
      var w := ReadWindow(parts[i]);
      if w.None? {
        InvalidPartInvalidatesAll(parts, i);
        return None;
      }
      ReadAllStep(parts, i);
      result := result + [WindowText(w.value)];
      ws := ws + [w.value];
    }
    assert parts[..|parts|] == parts;
    return Some(Join(Dedup(result), ';'));
  }

  lemma ReadAllStep(parts: seq<string>, i: nat)
    requires i < |parts| && ReadAll(parts[..i]).Some? && ReadWindow(parts[i]).Some?
    ensures ReadAll(parts[..i + 1]) == Some(ReadAll(parts[..i]).value + [ReadWindow(parts[i]).value])
  {
    hide ReadWindow;
    assert parts[..i + 1][..i] == parts[..i];
  }

  lemma {:induction false} InvalidPartInvalidatesAll(parts: seq<string>, i: nat)
    requires i < |parts| && ReadWindow(parts[i]).None?
    ensures ReadAll(parts).None?
  {
    if i < |parts| - 1 {
      InvalidPartInvalidatesAll(parts[..|parts| - 1], i);
    }
  }

  /** Slicing of normalised text: int(t[:2]) * 60 + int(t[3:]) on both sides of the dash. */
  function SliceMinutes(t: string): int {
    if |t| == 5 then
      (10 * DigitValue(t[0]) + DigitValue(t[1])) * 60 + 10 * DigitValue(t[3]) + DigitValue(t[4])
    else -1
  }

  function SlicePart(part: string): seq<int> {
    var sides := Split(part, '-');
    seq(|sides|, i requires 0 <= i < |sides| => SliceMinutes(sides[i]))
  }

  /** The minute pairs `windows(schedule)` computes. */
  function WindowMinutes(value: string): Option<seq<seq<int>>> {
    var text := Normalize(value);
    if text.None? then None else
    var parts := Split(text.value, ';');
    Some(seq(|parts|, i requires 0 <= i < |parts| => SlicePart(parts[i])))
  }

  function Pairs(ws: seq<Window>): seq<seq<int>> {
    seq(|ws|, i requires 0 <= i < |ws| => [ws[i].start, ws[i].end])
  }

  lemma SliceWindowText(w: Window)
    ensures SlicePart(WindowText(w)) == [w.start, w.end]
  {
    var sides := [ClockText(w.start), ClockText(w.end)];
    assert Join(sides, '-') == WindowText(w);
    SplitJoin(sides, '-');
  }

  lemma {:induction false} ReadAllTexts(ws: seq<Window>)
    ensures ReadAll(Texts(ws)) == Some(ws)
  {
    hide ReadWindow, WindowText;
    if ws != [] {
      var init, last := ws[..|ws| - 1], ws[|ws| - 1];
      var texts := Texts(ws);
      assert texts[..|texts| - 1] == Texts(init) && texts[|texts| - 1] == WindowText(last);
      ReadAllTexts(init);
      ReadWindowText(last);
      assert init + [last] == ws;
      assert ReadAll(texts).value == ws;
    }
  }

  lemma {:induction false} DedupTexts(ws: seq<Window>)
    ensures Dedup(Texts(ws)) == Texts(Dedup(ws))
  {
    hide ReadWindow, WindowText;
    if ws != [] {
      var init, last := ws[..|ws| - 1], ws[|ws| - 1];
      DedupTexts(init);
      assert Texts(ws)[..|ws| - 1] == Texts(init);
      if WindowText(last) in Texts(init) {
        var i :| 0 <= i < |init| && Texts(init)[i] == WindowText(last);
        ReadWindowText(init[i]);
        ReadWindowText(last);
      }
      if last in init {
        var i :| 0 <= i < |init| && init[i] == last;
        assert Texts(init)[i] == WindowText(last);
      }
      assert last !in init ==> Texts(Dedup(init) + [last]) == Texts(Dedup(init)) + [WindowText(last)];
    }
  }

  lemma {:induction false} ReadAllLength(parts: seq<string>)
    requires ReadAll(parts).Some?
    ensures |ReadAll(parts).value| == |parts|
  {
    if parts != [] { ReadAllLength(parts[..|parts| - 1]); }
  }

  /** The normal form is the text of the windows written, without repetitions. */
  lemma NormalTextParts(value: string)
    requires Written(value).Some?
    ensures var kept := Dedup(Written(value).value);
      && 1 <= |kept| <= MAX_WINDOWS
      && Normalize(value) == Some(Join(Texts(kept), ';'))
      && Split(Join(Texts(kept), ';'), ';') == Texts(kept)
      && |Join(Texts(kept), ';')| == 12 * |kept| - 1
  {
    hide ReadWindow, ClockText, ReadAll;
    var ws := Written(value).value;
    var kept := Dedup(ws);
    ReadAllLength(Split(value, ';'));
    DedupTexts(ws);
    DedupBasics(ws);
    forall i | 0 <= i < |kept| ensures |Texts(kept)[i]| == 11 && ';' !in Texts(kept)[i] {
      WindowTextShape(kept[i]);
    }
    SplitJoin(Texts(kept), ';');
    JoinLength(Texts(kept), ';', 11);
  }

  /** The windows a text means are those written, in order of first occurrence, each once. */
  lemma WindowsAreThoseWritten(value: string)
    requires Written(value).Some?
    ensures WindowMinutes(value) == Some(Pairs(Dedup(Written(value).value)))
  {
    hide ReadWindow, WindowText, SlicePart, ReadAll;
    var kept := Dedup(Written(value).value);
    NormalTextParts(value);
    forall i | 0 <= i < |kept| ensures SlicePart(Texts(kept)[i]) == [kept[i].start, kept[i].end] {
      SliceWindowText(kept[i]);
    }
    assert WindowMinutes(value).value == Pairs(kept);
  }

  lemma NormalFormIsWritten(value: string)
    requires Written(value).Some?
    ensures Normalize(value).Some?
    ensures Written(Normalize(value).value) == Some(Dedup(Written(value).value))
  {
    NormalTextParts(value);
    ReadAllTexts(Dedup(Written(value).value));
  }

  /**
    Round trip. Every accepted text has a normal form of at most 191 characters, which is accepted,
    normalises to itself, and means the same windows.
  */
  lemma NormalFormRoundTrip(value: string)
    requires Written(value).Some?
    ensures Normalize(value).Some?
    ensures Normalize(Normalize(value).value) == Normalize(value)
    ensures WindowMinutes(Normalize(value).value) == WindowMinutes(value)
    ensures 11 <= |Normalize(value).value| <= 191
  {
    var text := Join(Texts(Dedup(Written(value).value)), ';');
    NormalTextParts(value);
    NormalFormIsWritten(value);
    DedupBasics(Written(value).value);
    DedupDistinct(Dedup(Written(value).value));
    NormalTextParts(text);
    WindowsAreThoseWritten(value);
    WindowsAreThoseWritten(text);
  }

  /** Dropping repeated windows leaves `active` as it is at every minute, in every zone. */
  lemma DuplicatesDoNotMatter(ws: seq<Window>, days: Days, zone: Zone, u: int)
    ensures ActiveAt(Timetable(Dedup(ws), days, zone), u) == ActiveAt(Timetable(ws, days, zone), u)
  {
    DedupBasics(ws);
    var kept := Dedup(ws);
    if i :| 0 <= i < |ws| && Covers(ws[i], days, zone(u)) {
      assert ws[i] in kept;
      var j :| 0 <= j < |kept| && kept[j] == ws[i];
      assert Covers(Timetable(kept, days, zone).windows[j], days, zone(u));
    }
    if j :| 0 <= j < |kept| && Covers(kept[j], days, zone(u)) {
      assert kept[j] in ws;
      var i :| 0 <= i < |ws| && ws[i] == kept[j];
      assert Covers(Timetable(ws, days, zone).windows[i], days, zone(u));
    }
  }
}
