/** The style sheet of one renderer instance: one fill rule per coloured part, scoped to the instance. */
module Styles {
  import opened Wrappers

  predicate IsDigit(c: char) {
    '0' <= c <= '9'
  }

  predicate AllDigits(s: string) {
    forall k | 0 <= k < |s| :: IsDigit(s[k])
  }

  function Digit(d: nat): (c: char)
    requires d < 10
    ensures IsDigit(c) && (c as int) - ('0' as int) == d
  {
    ('0' as int + d) as char
  }

  /** The decimal writing of a non-negative number, as the platform's string conversion gives it. */
  function Digits(n: nat): (s: string)
    ensures |s| >= 1 && AllDigits(s)
    ensures |s| > 1 ==> s[0] != '0'
  {
    if n < 10 then [Digit(n)] else Digits(n / 10) + [Digit(n % 10)]
  }

  /** The number a string of decimal digits denotes. */
  function ValueOf(s: string): nat
    requires AllDigits(s)
  {
    if |s| == 0 then 0 else 10 * ValueOf(s[..|s| - 1]) + ((s[|s| - 1] as int) - ('0' as int))
  }

  /** Reading the digits back gives the number. */
  lemma {:induction false} DigitsRoundTrip(n: nat)
    ensures ValueOf(Digits(n)) == n
  {
    if n >= 10 {
      var s := Digits(n);
      assert s[..|s| - 1] == Digits(n / 10);
      DigitsRoundTrip(n / 10);
    }
  }

  /** The identifier of the n-th renderer instance. */
  function InstanceId(n: nat): string {
    "svg_qr_" + Digits(n)
  }

  /** A template string writes an absent colour as the word "undefined". */
  function CssColor(color: Option<string>): (t: string)
    ensures color.Some? ==> t == color.value
    ensures color.None? ==> t == "undefined"
  {
    color.GetOr("undefined")
  }

  /** The selector prefix every rule of every instance shares, up to the instance number. */
  const SelectorPrefix: string := "[data-internal-uid=\"svg_qr_"

  /** The rule giving the elements of class `name` inside instance `uid` the colour as their fill. */
  function StyleRule(uid: nat, name: string, color: Option<string>): string {
    "[data-internal-uid=\"" + InstanceId(uid) + "\"] ." + name + "{ fill: " + CssColor(color) + "; }"
  }

  /** Adding a style appends its rule: what the sheet held before is kept as it was, and the rule follows it. */
  function CreateStyle(sheet: string, uid: nat, name: string, color: Option<string>): (s: string)
    ensures |s| == |sheet| + |StyleRule(uid, name, color)|
    ensures s[..|sheet|] == sheet && s[|sheet|..] == StyleRule(uid, name, color)
  {
    sheet + StyleRule(uid, name, color)
  }

  /** A rule is the shared prefix, the instance number, then a closing quote. */
  lemma RuleLayout(uid: nat, name: string, color: Option<string>)
    ensures var r := StyleRule(uid, name, color); var d := Digits(uid);
      && |r| > |SelectorPrefix| + |d|
      && r[..|SelectorPrefix|] == SelectorPrefix
      && r[|SelectorPrefix|..|SelectorPrefix| + |d|] == d
      && r[|SelectorPrefix| + |d|] == '"'
  {
    var r := StyleRule(uid, name, color);
    var d := Digits(uid);
    assert r == SelectorPrefix + d + ("\"] ." + name + "{ fill: " + CssColor(color) + "; }");
  }

  /** Rules of two different instances never coincide, whatever class names and colours they carry. */
  lemma RulesScopedToInstance(u1: nat, n1: string, c1: Option<string>, u2: nat, n2: string, c2: Option<string>)
    requires StyleRule(u1, n1, c1) == StyleRule(u2, n2, c2)
    ensures u1 == u2
  {
    var r := StyleRule(u1, n1, c1);
    var d1, d2 := Digits(u1), Digits(u2);
    var p := |SelectorPrefix|;
    RuleLayout(u1, n1, c1);
    RuleLayout(u2, n2, c2);
    assert d1 == r[p..p + |d1|] == d2;
    DigitsRoundTrip(u1);
    DigitsRoundTrip(u2);
  }

  /** One style per part, in the order the parts are coloured. */
  datatype StyleRequest = StyleRequest(name: string, color: Option<string>)

  /** The sheet after adding the requested styles one by one. */
  function Sheet(uid: nat, requests: seq<StyleRequest>): string {
    if |requests| == 0 then ""
    else CreateStyle(Sheet(uid, requests[..|requests| - 1]), uid, requests[|requests| - 1].name, requests[|requests| - 1].color)
  }

  /** Later styles never disturb earlier ones: the sheet for a prefix of the requests is a prefix of the sheet. */
  lemma {:induction false} SheetGrowsByAppending(uid: nat, requests: seq<StyleRequest>, n: nat)
    requires n <= |requests|
    ensures var s := Sheet(uid, requests); var t := Sheet(uid, requests[..n]); |t| <= |s| && s[..|t|] == t
  {
    if n < |requests| {
      var front := requests[..|requests| - 1];
      assert requests[..n] == front[..n];
      SheetGrowsByAppending(uid, front, n);
      var s, u, t := Sheet(uid, requests), Sheet(uid, front), Sheet(uid, requests[..n]);
      assert s[..|u|] == u;
      assert s[..|t|] == u[..|t|];
    } else {
      assert requests[..n] == requests;
    }
  }
}
