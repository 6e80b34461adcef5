/**
 * The small pure helpers of ui.js: thousands separators, the user colour
 * and the browser named by a user-agent string.
 */
module Ui {
  import opened JsText
  import opened Config

  // ---------------------------------------------------------------------
  // formatNumber

  /**
   * A digit string with a `,` in front of every group of three digits
   * counted from the right, except at the very start.
   */
  function Group(d: string): (r: string)
    ensures |d| >= 1 ==> |r| == |d| + (|d| - 1) / 3 && r[0] == d[0]
    decreases |d|
  {
    if |d| <= 3 then d else Group(d[..|d| - 3]) + "," + d[|d| - 3..]
  }

  /**
   * `formatNumber(num)` for an integer: `num.toString()` with
   * `/\B(?=(\d{3})+(?!\d))/g` replaced by `,`. The pattern only matches
   * between two digits with a multiple of three digits after it, so a minus
   * sign is left alone and the digits are grouped from the right.
   */
  function FormatNumber(n: int): (r: string)
    ensures |r| >= 1 && (r[0] == '-' <==> n < 0)
  {
    if n < 0 then "-" + Group(Decimal(-n)) else Group(Decimal(n))
  }

  /** `s` with its commas deleted. */
  function StripCommas(s: string): string {
    if s == [] then [] else (if s[0] == ',' then [] else [s[0]]) + StripCommas(s[1..])
  }

  /**
   * Digits and commas, starting with a digit, with a comma exactly at the
   * positions that have a multiple of four characters from there to the
   * end: so every comma is followed by exactly three digits and then a
   * comma or the end, and the first group has one to three digits.
   */
  ghost predicate Grouped(r: string) {
    && |r| >= 1 && IsDigit(r[0])
    && forall i :: 0 <= i < |r| ==> (r[i] == ',' <==> (|r| - i) % 4 == 0) && (r[i] == ',' || IsDigit(r[i]))
  }

  lemma {:induction false} StripCommasAppend(a: string, b: string)
    ensures StripCommas(a + b) == StripCommas(a) + StripCommas(b)
  {
    if a != [] {
      assert (a + b)[0] == a[0] && (a + b)[1..] == a[1..] + b;
      StripCommasAppend(a[1..], b);
      assert StripCommas(a + b) == (if a[0] == ',' then [] else [a[0]]) + StripCommas(a[1..] + b);
    } else {
      assert a + b == b;
    }
  }

  lemma {:induction false} StripCommasDigits(d: string)
    requires AllDigits(d)
    ensures StripCommas(d) == d
  {
    if d != [] {
      StripCommasDigits(d[1..]);
    }
  }

  /** A well-grouped string, a comma and three digits make a well-grouped string. */
  lemma GroupedAppend(g: string, t: string)
    requires Grouped(g) && |t| == 3 && AllDigits(t)
    ensures Grouped(g + "," + t)
  {
    var r := g + "," + t;
    forall i | 0 <= i < |r|
      ensures (r[i] == ',' <==> (|r| - i) % 4 == 0) && (r[i] == ',' || IsDigit(r[i]))
    {
      if i < |g| {
        assert r[i] == g[i];
        assert (|r| - i) % 4 == (|g| - i) % 4;
      } else if i > |g| {
        assert r[i] == t[i - |g| - 1];
      }
    }
  }

  /** Joining with a comma: the comma disappears and the digits stay. */
  lemma StripCommaJoin(g: string, t: string)
    requires AllDigits(t)
    ensures StripCommas(g + "," + t) == StripCommas(g) + t
  {
    calc {
      StripCommas(g + "," + t);
      { StripCommasAppend(g + ",", t); StripCommasDigits(t); }
      StripCommas(g + ",") + t;
      { StripCommasAppend(g, ","); StripCommaAlone(); }
      StripCommas(g) + [] + t;
      { assert StripCommas(g) + [] == StripCommas(g); }
      StripCommas(g) + t;
    }
  }

  lemma StripCommaAlone()
    ensures StripCommas(",") == []
  {
    assert ","[1..] == [];
  }

  /** Grouping a digit string gives a well-grouped string that loses no digit. */
  lemma {:induction false} GroupShape(d: string)
    requires |d| >= 1 && AllDigits(d)
    ensures Grouped(Group(d))
    ensures StripCommas(Group(d)) == d
    decreases |d|
  {
    if |d| <= 3 {
      StripCommasDigits(d);
    } else {
      var h, t := d[..|d| - 3], d[|d| - 3..];
      SplitDigits(d);
      GroupShape(h);
      GroupedAppend(Group(h), t);
      StripCommaJoin(Group(h), t);
    }
  }

  /** The two parts `Group` splits a long digit string into. */
  lemma SplitDigits(d: string)
    requires |d| > 3 && AllDigits(d)
    ensures AllDigits(d[..|d| - 3]) && AllDigits(d[|d| - 3..])
    ensures d[..|d| - 3] + d[|d| - 3..] == d
  {
  }

  /**
   * Deleting the commas from `formatNumber(n)` gives `n.toString()`; the
   * digits are well grouped; and numbers below 1000 come back unchanged.
   */
  lemma FormatNumberDigits(n: int)
    ensures n >= 0 ==> StripCommas(FormatNumber(n)) == Decimal(n) && Grouped(FormatNumber(n))
    ensures n < 0 ==> exists g :: FormatNumber(n) == "-" + g && StripCommas(g) == Decimal(-n) && Grouped(g)
    ensures 0 <= n < 1000 ==> FormatNumber(n) == Decimal(n)
  {
    var m := if n < 0 then -n else n;
    GroupShape(Decimal(m));
    DecimalLength(m, 3, Pow10(3));
    if n < 0 {
      assert FormatNumber(n) == "-" + Group(Decimal(m));
    }
  }

  // ---------------------------------------------------------------------
  // getUserColor and getBrowserInfo

  /** `getUserColor`: CoMSAI membership wins over the section. */
  function GetUserColor(u: User): (color: string)
    ensures color == "var(--success)" <==> u.isComsai
    ensures color == "var(--secondary)" <==> !u.isComsai && u.section == "Guest"
    ensures color == "var(--primary)" <==> !u.isComsai && u.section != "Guest"
  {
    if u.isComsai then "var(--success)"
    else if u.section == "Guest" then "var(--secondary)"
    else "var(--primary)"
  }

  /** `w` occurs somewhere in `s`. */
  ghost predicate Mentions(s: string, w: string) {
    exists k :: OccursAt(s, w, k)
  }

  /** What `getBrowserInfo` returns; `platform` and `language` come from `navigator`. */
  datatype BrowserInfo = BrowserInfo(browser: string, platform: string, language: string)

  /**
   * `getBrowserInfo` for the user-agent string `ua`: the first of Firefox,
   * Chrome, Safari and Edge that `ua` mentions, tested in that order, and
   * "Unknown" when it mentions none.
   */
  function GetBrowserInfo(ua: string, platform: string, language: string): (info: BrowserInfo)
    ensures info.platform == platform && info.language == language
    ensures info.browser == "Firefox" <==> Mentions(ua, "Firefox")
    ensures info.browser == "Chrome" <==> !Mentions(ua, "Firefox") && Mentions(ua, "Chrome")
    ensures info.browser == "Safari" <==> !Mentions(ua, "Firefox") && !Mentions(ua, "Chrome") && Mentions(ua, "Safari")
    ensures info.browser == "Edge" <==>
      !Mentions(ua, "Firefox") && !Mentions(ua, "Chrome") && !Mentions(ua, "Safari") && Mentions(ua, "Edge")
    ensures info.browser == "Unknown" <==>
      !Mentions(ua, "Firefox") && !Mentions(ua, "Chrome") && !Mentions(ua, "Safari") && !Mentions(ua, "Edge")
  {
    var browser :=
      if IndexOf(ua, "Firefox") > -1 then "Firefox"
      else if IndexOf(ua, "Chrome") > -1 then "Chrome"
      else if IndexOf(ua, "Safari") > -1 then "Safari"
      else if IndexOf(ua, "Edge") > -1 then "Edge"
      else "Unknown";
    BrowserInfo(browser, platform, language)
  }
}
