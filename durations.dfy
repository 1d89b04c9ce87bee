/**
 * Hours and minutes of a number of seconds, as the two duration formatters
 * compute them (`Math.floor(s / 3600)` and `Math.floor((s % 3600) / 60)`),
 * and a reader for the "<h>h <m>m" / "<m>m" notation they print, against
 * which the formatters are checked.
 */
module Durations {
  import opened Wrappers
  import opened Js

  /** `Math.floor(seconds / 3600)`. */
  function HoursOf(seconds: int): (h: int)
    ensures 3600 * h <= seconds < 3600 * (h + 1)
    ensures seconds >= 0 ==> h >= 0
  {
    seconds / 3600
  }

  /** `Math.floor((seconds % 3600) / 60)`, with JavaScript's truncating `%`. */
  function MinutesOf(seconds: int): (m: int)
    ensures seconds >= 0 ==> 0 <= m < 60
    ensures seconds < 0 ==> -60 <= m <= 0
  {
    TruncRem(seconds, 3600) / 60
  }

  /** Whole hours and minutes recombine to the seconds rounded down to a minute. */
  lemma HoursAndMinutes(seconds: nat)
    ensures 3600 * HoursOf(seconds) + 60 * MinutesOf(seconds) == seconds - seconds % 60
  {
    var h, q := seconds / 3600, seconds % 3600;
    var m, r := q / 60, q % 60;
    assert seconds == 3600 * h + q;
    assert q == 60 * m + r;
    assert seconds == 60 * (60 * h + m) + r;
    ModOfSplit(seconds, 60 * h + m, r);
  }

  /** The remainder by 60 is the unique `r` with `a == 60 * k + r` and `0 <= r < 60`. */
  lemma ModOfSplit(a: int, k: int, r: int)
    requires 0 <= r < 60 && a == 60 * k + r
    ensures a % 60 == r
  {
  }

  /** Index of the first `c` in `s`, or `|s|` when there is none. */
  function IndexOf(s: string, c: char): (i: nat)
    ensures i <= |s|
    ensures i < |s| ==> s[i] == c
    ensures forall j :: 0 <= j < i ==> s[j] != c
  {
    if s == [] then 0 else if s[0] == c then 0 else 1 + IndexOf(s[1..], c)
  }

  /** A non-empty run of decimal digits. */
  predicate IsNumeral(s: string) {
    s != [] && AllDigits(s)
  }

  /**
   * The seconds a duration notation stands for: "<h>h <m>m" or "<m>m" with
   * decimal numerals, and `None` for anything else.
   */
  function ReadDuration(text: string): (r: Option<nat>)
    ensures r.Some? ==> r.value % 60 == 0
    ensures r.Some? ==> text != [] && text[|text| - 1] == 'm'
  {
    if text == [] || text[|text| - 1] != 'm' then None
    else
      var body := text[..|text| - 1];
      var i := IndexOf(body, 'h');
      if i == |body| then
        if IsNumeral(body) then Some(60 * ParseNat(body)) else None
      else if i + 1 < |body| && body[i + 1] == ' ' && IsNumeral(body[..i]) && IsNumeral(body[i + 2..]) then
        Some(3600 * ParseNat(body[..i]) + 60 * ParseNat(body[i + 2..]))
      else None
  }

  /** Reading "<minutes>m" back. */
  lemma ReadMinutes(m: nat)
    ensures ReadDuration(NatToString(m) + "m") == Some(60 * m)
  {
    var text := NatToString(m) + "m";
    assert text[..|text| - 1] == NatToString(m);
    NoLetterInNumeral(NatToString(m), 'h');
    ParseNatToString(m);
  }

  /** Reading "<hours>h <minutes>m" back. */
  lemma ReadHoursMinutes(h: nat, m: nat)
    ensures ReadDuration(NatToString(h) + "h " + NatToString(m) + "m") == Some(3600 * h + 60 * m)
  {
    var hs, ms := NatToString(h), NatToString(m);
    var text := hs + "h " + ms + "m";
    var body := hs + "h " + ms;
    assert text[..|text| - 1] == body;
    var i := |hs|;
    assert IndexOf(body, 'h') == i by {
      NoLetterInNumeral(hs, 'h');
      IndexOfFirst(body, 'h', i);
    }
    assert body[..i] == hs;
    assert body[i + 2..] == ms;
    assert body[i + 1] == ' ';
    assert IsNumeral(body[..i]) && IsNumeral(body[i + 2..]);
    assert ReadDuration(text) == Some(3600 * ParseNat(hs) + 60 * ParseNat(ms));
    ParseNatToString(h);
    ParseNatToString(m);
  }

  /** A numeral holds no letter. */
  lemma NoLetterInNumeral(s: string, c: char)
    requires AllDigits(s) && !IsDigit(c)
    ensures IndexOf(s, c) == |s|
    ensures forall i :: 0 <= i < |s| ==> s[i] != c
  {
  }

  /** `IndexOf` finds the first occurrence. */
  lemma {:induction false} IndexOfFirst(s: string, c: char, k: nat)
    requires k < |s| && s[k] == c
    requires forall j :: 0 <= j < k ==> s[j] != c
    ensures IndexOf(s, c) == k
  {
    if k > 0 {
      IndexOfFirst(s[1..], c, k - 1);
    }
  }
}
