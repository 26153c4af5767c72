/** Names for automatically registered devices (manager/device_manager.py, _auto_name). */
module AutoName {
  import Text = ScheduleText

  predicate Allowed(c: char) {
    'A' <= c <= 'Z' || 'a' <= c <= 'z' || '0' <= c <= '9' || c in "_. -"
  }

  function Keep(s: string): string {
    if s == "" then "" else (if Allowed(s[0]) then [s[0]] else "") + Keep(s[1..])
  }

  function Remove(s: string, drop: string): string {
    if s == "" then "" else (if s[0] in drop then "" else [s[0]]) + Remove(s[1..], drop)
  }

  /** Text left of trailing spaces. */
  function TrimEnd(s: string): string {
    if s != "" && s[|s| - 1] == ' ' then TrimEnd(s[..|s| - 1]) else s
  }

  function TrimStart(s: string): string {
    if s != "" && s[0] == ' ' then TrimStart(s[1..]) else s
  }

  /** The cleaned title, at most 80 characters, or "Device". */
  function Base(title: string): (b: string)
    ensures b != ""
  {
    var t := TrimEnd(TrimStart(Keep(title)));
    var cut := if |t| > 80 then t[..80] else t;
    if cut == "" then "Device" else cut
  }

  function Suffix(mac: string): string {
    var t := Remove(mac, ":.");
    if |t| > 6 then t[|t| - 6..] else t
  }

  function Stem(title: string, mac: string): string {
    Base(title) + "-" + Suffix(mac)
  }

  function Decimal(n: nat): (s: string)
    ensures |s| >= 1
  {
    if n < 10 then [Text.Digit(n)] else Decimal(n / 10) + [Text.Digit(n % 10)]
  }

  lemma {:induction false} DecimalIsInjective(a: nat, b: nat)
    requires Decimal(a) == Decimal(b)
    ensures a == b
  {
    var s, t := Decimal(a), Decimal(b);
    if a >= 10 && b >= 10 {
      assert s[..|s| - 1] == Decimal(a / 10) && t[..|t| - 1] == Decimal(b / 10);
      DecimalIsInjective(a / 10, b / 10);
      assert s[|s| - 1] == Text.Digit(a % 10) && t[|t| - 1] == Text.Digit(b % 10);
      assert Text.DigitValue(s[|s| - 1]) == a % 10;
    } else {
      assert a >= 10 ==> |s| >= 2;
      assert b >= 10 ==> |t| >= 2;
      assert a < 10 ==> Text.DigitValue(s[0]) == a;
      assert b < 10 ==> Text.DigitValue(t[0]) == b;
    }
  }

  function Numbered(stem: string, n: nat): string {
    stem + "-" + Decimal(n)
  }

  /** Distinct counters print distinct candidates. */
  lemma NumberedIsInjective(stem: string, a: nat, b: nat)
    requires Numbered(stem, a) == Numbered(stem, b)
    ensures a == b
  {
    var head := stem + "-";
    assert Numbered(stem, a)[|head|..] == Decimal(a) && Numbered(stem, b)[|head|..] == Decimal(b);
    DecimalIsInjective(a, b);
  }

  /** Names that some candidate from n on would collide with. */
  ghost function Ahead(stem: string, n: nat, names: set<string>): set<string> {
    set x | x in names && exists k: nat :: k >= n && x == Numbered(stem, k)
  }

  lemma AheadShrinks(stem: string, n: nat, names: set<string>)
    requires Numbered(stem, n) in names
    ensures Ahead(stem, n + 1, names) < Ahead(stem, n, names)
  {
    assert Numbered(stem, n) in Ahead(stem, n, names);
    if Numbered(stem, n) in Ahead(stem, n + 1, names) {
      var k: nat :| k >= n + 1 && Numbered(stem, n) == Numbered(stem, k);
      NumberedIsInjective(stem, n, k);
    }
  }

  /** The first free candidate from n on. */
  function FreeFrom(stem: string, n: nat, names: set<string>): (name: string)
    ensures name !in names
    ensures exists k: nat :: k >= n && name == Numbered(stem, k) && forall j: nat :: n <= j < k ==> Numbered(stem, j) in names
    decreases Ahead(stem, n, names)
  {
    if Numbered(stem, n) !in names then Numbered(stem, n)
    else
      AheadShrinks(stem, n, names);
      FreeFrom(stem, n + 1, names)
  }

  function Chosen(title: string, mac: string, names: set<string>): (name: string)
    ensures name !in names
  {
    var stem := Stem(title, mac);
    if stem !in names then stem else FreeFrom(stem, 2, names)
  }

  /** Cleaning goes character by character. */
  lemma {:induction false} KeepOfParts(a: string, b: string)
    ensures Keep(a + b) == Keep(a) + Keep(b)
  {
    hide Allowed;
    if a == "" {
      assert a + b == b;
    } else {
      KeepOfParts(a[1..], b);
      assert (a + b)[1..] == a[1..] + b && (a + b)[0] == a[0];
      var kept := if Allowed(a[0]) then [a[0]] else "";
      assert kept + (Keep(a[1..]) + Keep(b)) == kept + Keep(a[1..]) + Keep(b);
    }
  }

  /** Kept are ASCII letters and digits, the underscore, full stop, space and hyphen, and nothing else. */
  lemma KeepOfOne(c: char)
    ensures var code := c as int;
            Keep([c]) == if 65 <= code <= 90 || 97 <= code <= 122 || 48 <= code <= 57 || code in {95, 46, 32, 45} then [c] else ""
  {
    assert [c][1..] == "" && Keep("") == "";
    assert '_' as int == 95 && '.' as int == 46 && ' ' as int == 32 && '-' as int == 45;
  }

  /** A clean title of at most 80 characters, with no space at either end, is kept as it is. */
  lemma CleanTitleIsKept(title: string)
    requires 1 <= |title| <= 80 && title[0] != ' ' && title[|title| - 1] != ' ' && forall i :: 0 <= i < |title| ==> Allowed(title[i])
    ensures Base(title) == title
  {
    KeepsClean(title);
  }

  lemma {:induction false} KeepsClean(s: string)
    requires forall i :: 0 <= i < |s| ==> Allowed(s[i])
    ensures Keep(s) == s
  {
    if s != "" { KeepsClean(s[1..]); }
  }

  lemma {:induction false} KeptIsAllowed(s: string)
    ensures forall c :: c in Keep(s) ==> Allowed(c) && c in s
  {
    if s != "" { KeptIsAllowed(s[1..]); }
  }

  lemma {:induction false} TrimmedEnd(s: string) returns (n: nat)
    ensures n <= |s| && TrimEnd(s) == s[..n] && (n > 0 ==> s[n - 1] != ' ') && forall i :: n <= i < |s| ==> s[i] == ' '
  {
    n := |s|;
    if s != "" && s[|s| - 1] == ' ' { n := TrimmedEnd(s[..|s| - 1]); }
  }

  lemma {:induction false} TrimmedStart(s: string) returns (n: nat)
    ensures n <= |s| && TrimStart(s) == s[n..] && (n < |s| ==> s[n] != ' ') && forall i :: 0 <= i < n ==> s[i] == ' '
  {
    n := 0;
    if s != "" && s[0] == ' ' {
      var m := TrimmedStart(s[1..]);
      n := m + 1;
      assert s[1..][m..] == s[n..];
      forall i | 0 <= i < n ensures s[i] == ' ' { if i > 0 { assert s[1..][i - 1] == s[i]; } }
    }
  }

  /**
    Any title comes out as the part of its allowed characters that is left between spaces, at most 80 of
    them, or as "Device" when nothing is left.
  */
  lemma BaseOfTitle(title: string) returns (from: nat, to: nat)
    ensures var kept := Keep(title);
            && from <= to <= |kept|
            && (forall i :: 0 <= i < from ==> kept[i] == ' ') && (forall i :: to <= i < |kept| ==> kept[i] == ' ')
            && (from < to ==> kept[from] != ' ' && kept[to - 1] != ' ')
            && Base(title) == (if from == to then "Device" else if to - from > 80 then kept[from..from + 80] else kept[from..to])
            && forall c :: c in kept ==> Allowed(c) && c in title
  {
    KeptIsAllowed(title);
    var kept := Keep(title);
    from := TrimmedStart(kept);
    var n := TrimmedEnd(kept[from..]);
    to := from + n;
    assert forall i :: to <= i < |kept| ==> kept[i] == kept[from..][i - from];
    assert kept[from..][..n] == kept[from..to];
    if n > 80 { assert kept[from..to][..80] == kept[from..from + 80]; }
  }

  /** The suffix of a hardware address in colon notation is its last three octets. */
  lemma SuffixOfMac(mac: string)
    requires |mac| == 17 && forall i :: 0 <= i < 17 ==> (mac[i] == ':' <==> i % 3 == 2) && mac[i] != '.'
    ensures Suffix(mac) == [mac[9], mac[10], mac[12], mac[13], mac[15], mac[16]]
  {
    var head, tail := mac[..9], mac[9..];
    RemoveOfParts(head, tail, ":.");
    assert mac == head + tail;
    SuffixOfTail(tail);
  }

  lemma {:induction false} RemoveOfParts(a: string, b: string, drop: string)
    ensures Remove(a + b, drop) == Remove(a, drop) + Remove(b, drop)
  {
    if a == "" {
      assert a + b == b;
    } else {
      RemoveOfParts(a[1..], b, drop);
      assert (a + b)[1..] == a[1..] + b && (a + b)[0] == a[0];
      var kept := if a[0] in drop then "" else [a[0]];
      assert kept + (Remove(a[1..], drop) + Remove(b, drop)) == kept + Remove(a[1..], drop) + Remove(b, drop);
    }
  }

  lemma SuffixOfTail(t: string)
    requires |t| == 8 && forall i :: 0 <= i < 8 ==> (t[i] == ':' <==> i % 3 == 2) && t[i] != '.'
    ensures Remove(t, ":.") == [t[0], t[1], t[3], t[4], t[6], t[7]]
  {
    var x, y, z := t[..3], t[3..6], t[6..];
    assert t == x + (y + z);
    RemoveOfParts(x, y + z, ":.");
    RemoveOfParts(y, z, ":.");
    OctetAndColon(x);
    OctetAndColon(y);
    NothingRemoved(z, ":.");
    assert x[..2] == [t[0], t[1]] && y[..2] == [t[3], t[4]] && z == [t[6], t[7]];
    hide Remove;
  }

  lemma OctetAndColon(t: string)
    requires |t| == 3 && t[0] !in ":." && t[1] !in ":." && t[2] == ':'
    ensures Remove(t, ":.") == t[..2]
  {
    RemoveOfParts(t[..2], t[2..], ":.");
    NothingRemoved(t[..2], ":.");
    assert t == t[..2] + t[2..] && t[2..] == ":";
    assert Remove(":", ":.") == Remove(":"[1..], ":.");
  }

  lemma {:induction false} NothingRemoved(s: string, drop: string)
    requires forall c :: c in s ==> c !in drop
    ensures Remove(s, drop) == s
  {
    if s != "" { NothingRemoved(s[1..], drop); }
  }

  /** The name is the stem if that is free, else the stem with the first free counter from 2 on. */
  lemma ChosenIsFirstFree(title: string, mac: string, names: set<string>)
    ensures var stem := Base(title) + "-" + Suffix(mac);
            if stem !in names then Chosen(title, mac, names) == stem
            else exists k: nat :: k >= 2 && Chosen(title, mac, names) == Numbered(stem, k)
                                  && forall j: nat :: 2 <= j < k ==> Numbered(stem, j) in names
    ensures forall stem, k: nat :: Numbered(stem, k) == stem + "-" + Decimal(k)
  {
    hide Base, Suffix, Decimal;
    var stem := Stem(title, mac);
    if stem in names {
      var k: nat :| k >= 2 && FreeFrom(stem, 2, names) == Numbered(stem, k)
                    && forall j: nat :: 2 <= j < k ==> Numbered(stem, j) in names;
    }
  }

  /** Decimal prints the number. */
  lemma {:induction false} DecimalPrints(n: nat)
    ensures Value(Decimal(n)) == n && (n > 0 ==> Decimal(n)[0] != '0')
  {
    if n >= 10 {
      DecimalPrints(n / 10);
      assert Decimal(n)[..|Decimal(n)| - 1] == Decimal(n / 10);
    } else {
      assert Decimal(n)[..0] == "";
    }
  }

  /** The number that a text of digits denotes. */
  function Value(s: string): int {
    if s == "" then 0 else 10 * Value(s[..|s| - 1]) + (s[|s| - 1] as int - '0' as int)
  }

  /** The counting loop ends for every finite set of names, with a name outside it. */
  method AutoName(title: string, mac: string, existing: set<string>) returns (name: string, names: set<string>)
    ensures name == Chosen(title, mac, existing) && name !in existing
    ensures names == existing + {name}
  {
    var stem := Stem(title, mac);
    name := stem;
    var n := 2;
    while name in existing
      invariant n >= 2
      invariant name == if n == 2 then stem else Numbered(stem, n - 1)
      invariant n > 2 ==> stem in existing && FreeFrom(stem, 2, existing) == FreeFrom(stem, n - 1, existing)
      decreases if n == 2 then 1 else 0, Ahead(stem, if n == 2 then 2 else n - 1, existing)
    {
      if n > 2 {
        AheadShrinks(stem, n - 1, existing);
      }
      name := Numbered(stem, n);
      n := n + 1;
    }
    names := existing + {name};
  }
}
