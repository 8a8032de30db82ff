/**
 * The clock reading behind every token: `new Date().toISOString()` and the
 * minute-precision timestamp the client cuts out of it.
 */
module Clock {
  import opened Text

  /** A UTC instant, field by field. */
  datatype Instant = Instant(year: nat, month: nat, day: nat, hour: nat, minute: nat, second: nat, millis: nat)

  /** An instant `toISOString` renders in its four-digit-year form. */
  predicate Valid(t: Instant)
  {
    && t.year <= 9999 && 1 <= t.month <= 12 && 1 <= t.day <= 31
    && t.hour < 24 && t.minute < 60 && t.second < 60 && t.millis < 1000
  }

  /** `Date.prototype.toISOString`: `YYYY-MM-DDTHH:mm:ss.sssZ`. */
  function IsoString(t: Instant): string
  {
    Pad(t.year, 4) + "-" + Pad(t.month, 2) + "-" + Pad(t.day, 2) + "T"
    + Pad(t.hour, 2) + ":" + Pad(t.minute, 2) + ":" + Pad(t.second, 2) + "."
    + Pad(t.millis, 3) + "Z"
  }

  /** The characters the regular expression `/[-:.TZ]/g` matches. */
  predicate Separator(c: char)
  {
    c == '-' || c == ':' || c == '.' || c == 'T' || c == 'Z'
  }

  /** `.replace(/[-:.TZ]/g, "")`: drops every separator, keeps the rest in order. */
  function Strip(s: string): (r: string)
    ensures |r| <= |s|
    ensures forall i :: 0 <= i < |r| ==> !Separator(r[i])
    ensures forall i :: 0 <= i < |s| && !Separator(s[i]) ==> s[i] in r
  {
    if s == [] then ""
    else (if Separator(s[0]) then "" else [s[0]]) + Strip(s[1..])
  }

  /** `.slice(0, n)`: the first `n` characters, or all of a shorter string. */
  function Prefix(s: string, n: nat): string
  {
    if |s| <= n then s else s[..n]
  }

  /** The token timestamp: the ISO string without separators, cut to 12 characters. */
  function MinuteStamp(iso: string): (r: string)
    ensures |r| <= 12
    ensures forall i :: 0 <= i < |r| ==> !Separator(r[i])
  {
    Prefix(Strip(iso), 12)
  }

  lemma {:induction false} StripAppend(a: string, b: string)
    ensures Strip(a + b) == Strip(a) + Strip(b)
  {
    if a == [] {
      assert a + b == b;
    } else {
      assert (a + b)[1..] == a[1..] + b;
      StripAppend(a[1..], b);
    }
  }

  lemma {:induction false} StripDigits(s: string)
    requires AllDigits(s)
    ensures Strip(s) == s
  {
    if s != [] {
      StripDigits(s[1..]);
      assert [s[0]] + s[1..] == s;
    }
  }

  /** Stripping a padded field followed by one separator leaves the field's digits. */
  lemma StripField(acc: string, field: string, sep: string)
    requires AllDigits(field) && |sep| == 1 && Separator(sep[0])
    ensures Strip(acc + field + sep) == Strip(acc) + field
  {
    StripAppend(acc + field, sep);
    StripAppend(acc, field);
    StripDigits(field);
    assert Strip(sep) == "" by {
      assert sep[1..] == [];
    }
  }

  /** The ISO layout around seven digit fields, as `IsoString` builds it. */
  function Layout(y: string, mo: string, d: string, h: string, mi: string, s: string, ms: string): string
  {
    y + "-" + mo + "-" + d + "T" + h + ":" + mi + ":" + s + "." + ms + "Z"
  }

  lemma StripLayout(y: string, mo: string, d: string, h: string, mi: string, s: string, ms: string)
    requires AllDigits(y) && AllDigits(mo) && AllDigits(d) && AllDigits(h)
    requires AllDigits(mi) && AllDigits(s) && AllDigits(ms)
    ensures Strip(Layout(y, mo, d, h, mi, s, ms)) == y + mo + d + h + mi + s + ms
  {
    var a1 := y + "-";
    StripField("", y, "-");
    assert "" + y + "-" == a1;
    var a2 := a1 + mo + "-";
    StripField(a1, mo, "-");
    var a3 := a2 + d + "T";
    StripField(a2, d, "T");
    var a4 := a3 + h + ":";
    StripField(a3, h, ":");
    var a5 := a4 + mi + ":";
    StripField(a4, mi, ":");
    var a6 := a5 + s + ".";
    StripField(a5, s, ".");
    var a7 := a6 + ms + "Z";
    StripField(a6, ms, "Z");
    assert Strip("") == "";
    assert a7 == Layout(y, mo, d, h, mi, s, ms);
  }

  lemma IsoStringIsLayout(t: Instant)
    ensures IsoString(t) == Layout(Pad(t.year, 4), Pad(t.month, 2), Pad(t.day, 2), Pad(t.hour, 2),
                                   Pad(t.minute, 2), Pad(t.second, 2), Pad(t.millis, 3))
  {
  }

  /**
   * For a well-formed clock reading the timestamp is exactly `YYYYMMDDHHMM`:
   * twelve digits spelling the year, month, day, hour and minute.
   */
  lemma MinuteStampOfIso(t: Instant)
    requires Valid(t)
    ensures MinuteStamp(IsoString(t))
            == Pad(t.year, 4) + Pad(t.month, 2) + Pad(t.day, 2) + Pad(t.hour, 2) + Pad(t.minute, 2)
    ensures |MinuteStamp(IsoString(t))| == 12 && AllDigits(MinuteStamp(IsoString(t)))
  {
    var y, mo, d := Pad(t.year, 4), Pad(t.month, 2), Pad(t.day, 2);
    var h, mi, s, ms := Pad(t.hour, 2), Pad(t.minute, 2), Pad(t.second, 2), Pad(t.millis, 3);
    PadSpec(t.year, 4); PadSpec(t.month, 2); PadSpec(t.day, 2); PadSpec(t.hour, 2);
    PadSpec(t.minute, 2); PadSpec(t.second, 2); PadSpec(t.millis, 3);
    assert Pow10(2) == 100 && Pow10(3) == 1000 && Pow10(4) == 10000;
    IsoStringIsLayout(t);
    StripLayout(y, mo, d, h, mi, s, ms);
    var head := y + mo + d + h + mi;
    assert |head| == 12;
    var stripped := head + s + ms;
    assert y + mo + d + h + mi + s + ms == stripped;
    assert stripped[..12] == head;
    assert AllDigits(head);
  }

  /** Two concatenations of equally long parts are equal only part by part. */
  lemma EqualParts(y: string, mo: string, d: string, h: string, mi: string,
                   y': string, mo': string, d': string, h': string, mi': string)
    requires |y| == |y'| == 4 && |mo| == |mo'| == 2 && |d| == |d'| == 2
    requires |h| == |h'| == 2 && |mi| == |mi'| == 2
    requires y + mo + d + h + mi == y' + mo' + d' + h' + mi'
    ensures y == y' && mo == mo' && d == d' && h == h' && mi == mi'
  {
    var a, b := y + mo + d + h + mi, y' + mo' + d' + h' + mi';
    assert a[..4] == y && b[..4] == y';
    assert a[4..6] == mo && b[4..6] == mo';
    assert a[6..8] == d && b[6..8] == d';
    assert a[8..10] == h && b[8..10] == h';
    assert a[10..] == mi && b[10..] == mi';
  }

  lemma PadInjective(n: nat, m: nat, w: nat)
    ensures Pad(n, w) == Pad(m, w) ==> n == m
  {
    PadSpec(n, w);
    PadSpec(m, w);
  }

  lemma PadWidth(t: Instant)
    requires Valid(t)
    ensures |Pad(t.year, 4)| == 4 && |Pad(t.month, 2)| == 2 && |Pad(t.day, 2)| == 2
    ensures |Pad(t.hour, 2)| == 2 && |Pad(t.minute, 2)| == 2
  {
    assert Pow10(2) == 100 && Pow10(4) == 10000;
    PadSpec(t.year, 4); PadSpec(t.month, 2); PadSpec(t.day, 2); PadSpec(t.hour, 2); PadSpec(t.minute, 2);
  }

  /** The timestamp has minute precision: it identifies the minute, and seconds and milliseconds never reach it. */
  lemma MinutePrecision(t: Instant, u: Instant)
    requires Valid(t) && Valid(u)
    ensures MinuteStamp(IsoString(t)) == MinuteStamp(IsoString(u))
            <==> (t.year, t.month, t.day, t.hour, t.minute) == (u.year, u.month, u.day, u.hour, u.minute)
  {
    MinuteStampOfIso(t);
    MinuteStampOfIso(u);
    if MinuteStamp(IsoString(t)) == MinuteStamp(IsoString(u)) {
      PadWidth(t);
      PadWidth(u);
      EqualParts(Pad(t.year, 4), Pad(t.month, 2), Pad(t.day, 2), Pad(t.hour, 2), Pad(t.minute, 2),
                 Pad(u.year, 4), Pad(u.month, 2), Pad(u.day, 2), Pad(u.hour, 2), Pad(u.minute, 2));
      PadInjective(t.year, u.year, 4);
      PadInjective(t.month, u.month, 2);
      PadInjective(t.day, u.day, 2);
      PadInjective(t.hour, u.hour, 2);
      PadInjective(t.minute, u.minute, 2);
    }
  }
}
