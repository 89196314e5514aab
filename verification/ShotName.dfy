/** unique_shot_name: a name for a new shot that no shot of the session has yet. */
module ShotName {
  import opened Wrappers

  predicate Allowed(c: char) {
    'a' <= c <= 'z' || 'A' <= c <= 'Z' || '0' <= c <= '9' || c == '_' || c == '-'
  }

  /** Every character that is not allowed is dropped. */
  function Filter(s: string): (r: string)
    ensures forall i :: 0 <= i < |r| ==> Allowed(r[i])
  {
    if s == "" then "" else (if Allowed(s[0]) then [s[0]] else "") + Filter(s[1..])
  }

  function Sanitized(shot: string): (r: string)
    ensures r != "" && forall i :: 0 <= i < |r| ==> Allowed(r[i])
  {
    if Filter(shot) == "" then "Shot" else Filter(shot)
  }

  // ---- Numbers in names ----

  predicate AllDigits(s: string) {
    forall i :: 0 <= i < |s| ==> '0' <= s[i] <= '9'
  }

  function DigitOf(c: char): (d: nat)
    requires '0' <= c <= '9'
    ensures d < 10
  {
    c as int - '0' as int
  }

  function Number(s: string): nat
    requires AllDigits(s)
  {
    if s == "" then 0 else 10 * Number(s[..|s| - 1]) + DigitOf(s[|s| - 1])
  }

  /** Decimal digits, padded with zeros to the width: all but the last, and the last. */
  function Padded(n: nat, width: nat): (s: string)
    ensures s != "" && AllDigits(s)
    decreases n + width, 1
  {
    Front(n, width) + [DigitAt(n % 10)]
  }

  function Front(n: nat, width: nat): (s: string)
    ensures AllDigits(s)
    decreases n + width, 0
  {
    if n < 10 && width <= 1 then "" else Padded(n / 10, if width == 0 then 0 else width - 1)
  }

  function DigitAt(d: nat): (c: char)
    requires d < 10
    ensures '0' <= c <= '9' && DigitOf(c) == d
  {
    (d + '0' as int) as char
  }

  lemma NumberSnoc(s: string, c: char)
    requires AllDigits(s) && '0' <= c <= '9'
    ensures AllDigits(s + [c]) && Number(s + [c]) == 10 * Number(s) + DigitOf(c)
  {
    assert (s + [c])[..|s|] == s;
  }

  /** Padding loses nothing, so different numbers give different names. */
  lemma {:induction false} NumberOfPadded(n: nat, width: nat)
    ensures Number(Padded(n, width)) == n
    decreases n + width
  {
    if n >= 10 || width > 1 {
      NumberOfPadded(n / 10, if width == 0 then 0 else width - 1);
    }
    assert Number(Front(n, width)) == n / 10;
    NumberSnoc(Front(n, width), DigitAt(n % 10));
  }

  // ---- The series a name belongs to ----

  predicate DigitTail(s: string, k: nat) {
    1 <= k < |s| && AllDigits(s[k..])
  }

  /** Where the regular expression cuts: the shortest prefix, of one character or more, that
      leaves only digits, and at least one of them. */
  function Cut(s: string, from: nat): (r: Option<nat>)
    requires 1 <= from
    ensures r.Some? ==> from <= r.value && DigitTail(s, r.value)
    ensures forall k :: from <= k && DigitTail(s, k) ==> r.Some? && r.value <= k
    decreases |s| - from
  {
    if from >= |s| then None
    else if DigitTail(s, from) then Some(from)
    else Cut(s, from + 1)
  }

  datatype Series = Series(prefix: string, first: nat)

  function SeriesOf(name: string): Series {
    match Cut(name, 1)
    case None => Series(name + "_", 0)
    case Some(k) => Series(name[..k], Number(name[k..]))
  }

  function Numbered(prefix: string, n: nat): string {
    prefix + Padded(n, 3)
  }

  /** The k-th name that is tried. */
  function NameAt(name: string, k: nat): string {
    if k == 0 then name else Numbered(SeriesOf(name).prefix, SeriesOf(name).first + k - 1)
  }

  lemma SameFront(front: string, a: string, b: string)
    requires front + a == front + b
    ensures a == b
  {
    assert (front + a)[|front|..] == a && (front + b)[|front|..] == b;
  }

  lemma NumbersDiffer(prefix: string, m: nat, n: nat)
    requires m != n
    ensures Numbered(prefix, m) != Numbered(prefix, n)
  {
    if Numbered(prefix, m) == Numbered(prefix, n) {
      SameFront(prefix, Padded(m, 3), Padded(n, 3));
      NumberOfPadded(m, 3);
      NumberOfPadded(n, 3);
      assert false;
    }
  }

  lemma NamesDiffer(name: string, j: nat, k: nat)
    requires 1 <= j < k
    ensures NameAt(name, j) != NameAt(name, k)
  {
    var series := SeriesOf(name);
    NumbersDiffer(series.prefix, series.first + j - 1, series.first + k - 1);
  }

  /** Every name before the k-th is taken. */
  ghost predicate Taken(name: string, k: nat, existing: set<string>) {
    forall j :: 0 <= j < k ==> NameAt(name, j) in existing
  }

  /** The numbered names cannot all be taken: there are more of them than shots. */
  lemma {:induction false} Pigeonhole(name: string, n: nat, existing: set<string>)
    requires forall j :: 1 <= j <= n ==> NameAt(name, j) in existing
    ensures n <= |existing|
  {
    if n > 0 {
      forall j | 1 <= j < n ensures NameAt(name, j) != NameAt(name, n) {
        NamesDiffer(name, j, n);
      }
      Pigeonhole(name, n - 1, existing - {NameAt(name, n)});
    }
  }

  lemma OneMoreTry(name: string, k: nat, existing: set<string>)
    requires Taken(name, k, existing) && NameAt(name, k) in existing
    ensures k <= |existing| && Taken(name, k + 1, existing)
  {
    Pigeonhole(name, k, existing);
  }

  /** The loop; tries is how often it went round. */
  method FirstFree(start: string, prefix: string, first: nat, existing: set<string>) returns (name: string, tries: nat)
    requires SeriesOf(start) == Series(prefix, first)
    ensures name !in existing && name == NameAt(start, tries)
    ensures Taken(start, tries, existing) && tries <= |existing| + 1
  {
    var i := first;
    name, tries := start, 0;
    while name in existing
      invariant i == first + tries && name == NameAt(start, tries)
      invariant Taken(start, tries, existing) && tries <= |existing| + 1
      decreases |existing| + 1 - tries
    {
      OneMoreTry(start, tries, existing);
      name := Numbered(prefix, i);
      i := i + 1;
      tries := tries + 1;
    }
  }

  method UniqueShotName(shot: string, existing: set<string>) returns (name: string, tries: nat)
    ensures name !in existing && name == NameAt(Sanitized(shot), tries)
    ensures Taken(Sanitized(shot), tries, existing) && tries <= |existing| + 1
  {
    name := Filter(shot);
    if name == "" {
      name := "Shot";
    }
    var prefix, i := name + "_", 0;
    var m := Cut(name, 1);
    if m.Some? {
      prefix, i := name[..m.value], Number(name[m.value..]);
    }
    name, tries := FirstFree(name, prefix, i, existing);
  }

  // ---- What the names are ----

  lemma {:induction false} FilterAllowed(s: string)
    requires forall i :: 0 <= i < |s| ==> Allowed(s[i])
    ensures Filter(s) == s
  {
    if s != "" {
      FilterAllowed(s[1..]);
    }
  }

  lemma CutIs(s: string, k: nat)
    requires DigitTail(s, k) && forall j :: 1 <= j < k ==> !DigitTail(s, j)
    ensures Cut(s, 1) == Some(k)
  {
  }

  lemma DigitsBetween(s: string, j: nat, prefix: string)
    requires j < |prefix| && prefix <= s && AllDigits(s[j..])
    ensures forall i :: j <= i < |prefix| ==> '0' <= prefix[i] <= '9'
  {
    forall i | j <= i < |prefix| ensures '0' <= prefix[i] <= '9' {
      assert s[j..][i - j] == prefix[i];
    }
  }

  lemma SeriesIs(prefix: string, tail: string)
    requires prefix != "" && tail != "" && AllDigits(tail)
    requires forall j :: 1 <= j < |prefix| ==> !DigitTail(prefix + tail, j)
    ensures SeriesOf(prefix + tail) == Series(prefix, Number(tail))
  {
    var s := prefix + tail;
    assert s[|prefix|..] == tail && s[..|prefix|] == prefix;
    CutIs(s, |prefix|);
  }

  lemma NumberedSeries(prefix: string, n: nat)
    requires prefix != "" && forall j :: 1 <= j < |prefix| ==> !DigitTail(prefix + Padded(n, 3), j)
    ensures SeriesOf(Numbered(prefix, n)) == Series(prefix, n)
  {
    SeriesIs(prefix, Padded(n, 3));
    NumberOfPadded(n, 3);
  }

  lemma NotADigit(name: string)
    ensures (name + "_")[|name|] == '_'
  {
  }

  /** No part of the prefix could have been cut off with the number. */
  lemma PrefixStands(name: string, tail: string, j: nat)
    requires name != "" && 1 <= j < |SeriesOf(name).prefix|
    ensures !DigitTail(SeriesOf(name).prefix + tail, j)
  {
    var prefix := SeriesOf(name).prefix;
    var s := prefix + tail;
    if AllDigits(s[j..]) {
      DigitsBetween(s, j, prefix);
      if Cut(name, 1).None? {
        NotADigit(name);
      } else {
        var k := Cut(name, 1).value;
        assert prefix == name[..k];
        forall i | 0 <= i < |name[j..]| ensures '0' <= name[j..][i] <= '9' {
          assert name[j..][i] == if i + j < k then prefix[i + j] else name[k..][i + j - k];
        }
        assert DigitTail(name, j);
      }
    }
  }

  /** A name that was made up belongs to the series it was made from, at its own number: asked
      for again, it is numbered on from there. */
  lemma SeriesContinues(name: string, n: nat)
    requires name != ""
    ensures SeriesOf(Numbered(SeriesOf(name).prefix, n)) == Series(SeriesOf(name).prefix, n)
  {
    var prefix := SeriesOf(name).prefix;
    forall j | 1 <= j < |prefix| ensures !DigitTail(prefix + Padded(n, 3), j) {
      PrefixStands(name, Padded(n, 3), j);
    }
    NumberedSeries(prefix, n);
  }

  /** Every name tried has only allowed characters, so cleaning it again changes nothing. */
  lemma NamesAreClean(shot: string, k: nat)
    ensures Sanitized(NameAt(Sanitized(shot), k)) == NameAt(Sanitized(shot), k)
  {
    FilterAllowed(NameAt(Sanitized(shot), k));
  }

  /** Cleaning keeps the allowed characters in their order and nothing else. */
  lemma {:induction false} FilterKeeps(a: string, c: char, b: string)
    ensures Filter(a + [c] + b) == Filter(a) + (if Allowed(c) then [c] else "") + Filter(b)
    decreases |a|
  {
    var all := a + [c] + b;
    if a == "" {
      assert all[0] == c && all[1..] == b;
    } else {
      assert all[0] == a[0] && all[1..] == a[1..] + [c] + b;
      FilterKeeps(a[1..], c, b);
    }
  }

  lemma NothingLeft(shot: string)
    requires forall i :: 0 <= i < |shot| ==> !Allowed(shot[i])
    ensures Sanitized(shot) == "Shot"
  {
    NoneAllowed(shot);
  }

  lemma {:induction false} NoneAllowed(shot: string)
    requires forall i :: 0 <= i < |shot| ==> !Allowed(shot[i])
    ensures Filter(shot) == ""
  {
    if shot != "" {
      NoneAllowed(shot[1..]);
    }
  }

  function Pow10(k: nat): nat {
    if k == 0 then 1 else 10 * Pow10(k - 1)
  }

  lemma {:induction false} PaddedTo(n: nat, width: nat)
    requires width > 0
    ensures |Padded(n, width)| >= width
    ensures |Padded(n, width)| == width <==> n < Pow10(width)
    ensures |Padded(n, width)| > width ==> Padded(n, width)[0] != '0'
    decreases width
  {
    if width > 1 {
      PaddedTo(n / 10, width - 1);
      assert Front(n, width) == Padded(n / 10, width - 1);
    } else if n >= 10 {
      NoLeadingZero(n / 10);
      assert Front(n, width) == Padded(n / 10, 0);
    } else {
      assert Front(n, width) == "";
    }
  }

  lemma {:induction false} NoLeadingZero(n: nat)
    requires n > 0
    ensures Padded(n, 0)[0] != '0'
  {
    if n >= 10 {
      NoLeadingZero(n / 10);
    }
  }

  /** Three digits, and more only for numbers that need them. */
  lemma PaddedWidth(n: nat)
    ensures n < 1000 <==> |Padded(n, 3)| == 3
    ensures n >= 1000 ==> |Padded(n, 3)| > 3 && Padded(n, 3)[0] != '0'
  {
    PaddedTo(n, 3);
    assert Pow10(3) == 10 * Pow10(2) && Pow10(2) == 10 * Pow10(1) && Pow10(1) == 10 * Pow10(0);
  }

  predicate EndsInDigit(name: string) {
    name != "" && '0' <= name[|name| - 1] <= '9'
  }

  /** Which names are tried: the name itself, and then, for a name that does not end in a digit,
      the name and "_000", "_001" and so on. */
  lemma TriedAfterName(name: string, k: nat)
    requires name != "" && !EndsInDigit(name)
    ensures NameAt(name, 0) == name
    ensures NameAt(name, k + 1) == name + "_" + Padded(k, 3)
  {
    forall j | 1 <= j < |name| ensures !DigitTail(name, j) {
      assert name[j..][|name| - 1 - j] == name[|name| - 1];
    }
  }

  /** For a name of something and a number, where something does not end in a digit, that number
      again but of three digits, and then the next. */
  lemma TriedAfterNumber(front: string, digits: string, k: nat)
    requires front != "" && !EndsInDigit(front) && digits != "" && AllDigits(digits)
    ensures NameAt(front + digits, 0) == front + digits
    ensures NameAt(front + digits, k + 1) == front + Padded(Number(digits) + k, 3)
  {
    forall j | 1 <= j < |front| ensures !DigitTail(front + digits, j) {
      var s := front + digits;
      assert s[j..][|front| - 1 - j] == front[|front| - 1];
    }
    SeriesIs(front, digits);
  }
}
