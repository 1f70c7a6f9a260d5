/**
 * Text helpers both auction scrapers share word for word: reading a euro
 * amount out of a price text, and choosing and completing a photo URL.
 */
module Scrape {
  import opened Wrappers
  import opened Text

  const Nbsp: char := ' '
  const Euro: char := '€'

  // -------------------------------------------------------------- price text

  /** No-break spaces become spaces, dots (thousands separators) go, commas become dots. */
  function CleanPrice(t: string): string {
    ReplaceAll(ReplaceAll(ReplaceAll(t, [Nbsp], " "), ".", ""), ",", ".")
  }

  /** The length of the run of ASCII digits at the front of `s`. */
  function DigitRun(s: string): (n: nat)
    ensures n <= |s|
    ensures forall i :: 0 <= i < n ==> IsDigit(s[i])
    ensures n < |s| ==> !IsDigit(s[n])
    decreases |s|
  {
    if |s| > 0 && IsDigit(s[0]) then 1 + DigitRun(s[1..]) else 0
  }

  function Pow10(k: nat): (r: nat)
    ensures r >= 1
  {
    if k == 0 then 1 else 10 * Pow10(k - 1)
  }

  /**
   * The value of `[0-9]+(\.[0-9]+)?` read greedily at the front of `s`, which
   * starts with a digit: the integer run, plus a fraction when a dot and at
   * least one more digit follow.
   */
  function AmountAt(s: string): (r: real)
    requires |s| > 0 && IsDigit(s[0])
    ensures r >= 0.0
  {
    var k := DigitRun(s);
    var whole := DigitsValue(s[..k]) as real;
    var rest := s[k..];
    if |rest| >= 2 && rest[0] == '.' && IsDigit(rest[1]) then
      var f := DigitRun(rest[1..]);
      whole + DigitsValue(rest[1..][..f]) as real / Pow10(f) as real
    else whole
  }

  /**
   * The first euro sign that is followed, after any whitespace, by a digit,
   * and the amount read there (a regular-expression search, left to right).
   */
  function SearchEuro(s: string): (r: Option<real>)
    ensures r.Some? ==> r.value >= 0.0
    decreases |s|
  {
    if |s| == 0 then None
    else
      var after := s[1..][LeadingSpaces(s[1..])..];
      if s[0] == Euro && |after| > 0 && IsDigit(after[0]) then Some(AmountAt(after))
      else SearchEuro(s[1..])
  }

  /** `_parse_price`: nothing, an empty text or no euro amount all read as 0. */
  function ParsePrice(text: Option<string>): (p: real)
    ensures p >= 0.0
    ensures text.None? || text.value == "" ==> p == 0.0
  {
    if text.None? || text.value == "" then 0.0
    else SearchEuro(CleanPrice(text.value)).GetOr(0.0)
  }

  /** Replacing never brings in a character that neither the text nor the replacement has. */
  lemma {:induction false} ReplaceAllKeepsAbsent(s: string, pat: string, rep: string, c: char)
    requires |pat| > 0 && c !in s && c !in rep
    ensures c !in ReplaceAll(s, pat, rep)
    decreases |s|
  {
    if |s| > 0 {
      if StartsWith(s, pat) {
        assert s[|pat|..] == s[|pat|..];
        ReplaceAllKeepsAbsent(s[|pat|..], pat, rep, c);
      } else {
        ReplaceAllKeepsAbsent(s[1..], pat, rep, c);
      }
    }
  }

  /** Replacing a single character that does not occur changes nothing. */
  lemma {:induction false} ReplaceCharAbsent(s: string, c: char, rep: string)
    requires c !in s
    ensures ReplaceAll(s, [c], rep) == s
    decreases |s|
  {
    if |s| > 0 {
      assert !StartsWith(s, [c]) by { assert s[..1] == [s[0]]; }
      ReplaceCharAbsent(s[1..], c, rep);
      assert s == [s[0]] + s[1..];
    }
  }

  /** Replacing a single character: its first occurrence is replaced, the rest is replaced on. */
  lemma {:induction false} ReplaceCharSplit(a: string, b: string, c: char, rep: string)
    requires c !in a
    ensures ReplaceAll(a + [c] + b, [c], rep) == a + rep + ReplaceAll(b, [c], rep)
    decreases |a|
  {
    var s := a + [c] + b;
    if |a| == 0 {
      assert s[..1] == [c] && s[1..] == b;
    } else {
      assert s[..1] == [a[0]];
      assert s[1..] == a[1..] + [c] + b;
      ReplaceCharSplit(a[1..], b, c, rep);
      assert a == [a[0]] + a[1..];
    }
  }

  lemma {:induction false} NoEuroNoAmount(s: string)
    requires Euro !in s
    ensures SearchEuro(s) == None
    decreases |s|
  {
    if |s| > 0 {
      NoEuroNoAmount(s[1..]);
    }
  }

  /** A text without a euro sign prices at 0. */
  lemma ParsePriceWithoutEuro(t: string)
    requires Euro !in t
    ensures ParsePrice(Some(t)) == 0.0
  {
    var a := ReplaceAll(t, [Nbsp], " ");
    ReplaceAllKeepsAbsent(t, [Nbsp], " ", Euro);
    var b := ReplaceAll(a, ".", "");
    ReplaceAllKeepsAbsent(a, ".", "", Euro);
    ReplaceAllKeepsAbsent(b, ",", ".", Euro);
    NoEuroNoAmount(CleanPrice(t));
  }

  /** A euro sign with no digit after its spaces is skipped and the search goes on. */
  lemma EuroWithoutDigitSkipped(s: string)
    requires |s| > 0 && s[0] == Euro
    requires var after := s[1..][LeadingSpaces(s[1..])..]; |after| == 0 || !IsDigit(after[0])
    ensures SearchEuro(s) == SearchEuro(s[1..])
  {
  }

  /** The amount right after the first euro sign is the one read, past any spaces. */
  lemma {:induction false} FirstEuroAmount(a: string, sp: string, d: string)
    requires Euro !in a
    requires forall i :: 0 <= i < |sp| ==> IsSpace(sp[i])
    requires |d| > 0 && IsDigit(d[0])
    ensures SearchEuro(a + [Euro] + sp + d) == Some(AmountAt(d))
    decreases |a|
  {
    var s := a + [Euro] + sp + d;
    if |a| == 0 {
      assert s[1..] == sp + d;
      SpacesThenDigit(sp, d);
    } else {
      assert s[0] == a[0];
      assert s[1..] == a[1..] + [Euro] + sp + d;
      FirstEuroAmount(a[1..], sp, d);
    }
  }

  lemma {:induction false} SpacesThenDigit(sp: string, d: string)
    requires forall i :: 0 <= i < |sp| ==> IsSpace(sp[i])
    requires |d| > 0 && IsDigit(d[0])
    ensures LeadingSpaces(sp + d) == |sp|
    decreases |sp|
  {
    if |sp| == 0 {
      assert sp + d == d;
      DigitIsNotSpace(d[0]);
    } else {
      assert (sp + d)[1..] == sp[1..] + d;
      SpacesThenDigit(sp[1..], d);
    }
  }

  /**
   * "€ 1.234,50" reads as 1234.5: the dot is a thousands separator and the
   * comma the decimal point.
   */
  lemma ParsePriceExample(t: string)
    requires t == [Euro] + " 1.234,50"
    ensures ParsePrice(Some(t)) == 1234.5
  {
    var c := [Euro] + " 1234.50";
    CleanExample(t, c);
    EuroAtFront(c, " ", "1234.50");
    AmountExample();
  }

  lemma EuroAtFront(c: string, sp: string, d: string)
    requires c == [Euro] + sp + d
    requires forall i :: 0 <= i < |sp| ==> IsSpace(sp[i])
    requires |d| > 0 && IsDigit(d[0])
    ensures SearchEuro(c) == Some(AmountAt(d))
  {
    FirstEuroAmount([], sp, d);
    assert [] + [Euro] + sp + d == c;
  }

  lemma CleanExample(t: string, c: string)
    requires t == [Euro] + " 1.234,50" && c == [Euro] + " 1234.50"
    ensures CleanPrice(t) == c
  {
    var head := [Euro] + " 1";
    var tail := "234,50";
    var head2 := [Euro] + " 1234";
    var frac := "50";
    DropNbsp(t);
    DropDot(t, head, tail);
    assert head + tail == head2 + [','] + frac;
    CommaToDot(head + tail, head2, frac);
    assert head2 + "." + frac == c;
  }

  lemma DropNbsp(t: string)
    requires Nbsp !in t
    ensures ReplaceAll(t, [Nbsp], " ") == t
  {
    ReplaceCharAbsent(t, Nbsp, " ");
  }

  lemma DropDot(t: string, head: string, tail: string)
    requires t == head + ['.'] + tail && '.' !in head && '.' !in tail
    ensures ReplaceAll(t, ".", "") == head + tail
  {
    ReplaceCharSplit(head, tail, '.', "");
    ReplaceCharAbsent(tail, '.', "");
  }

  lemma CommaToDot(t: string, head: string, tail: string)
    requires t == head + [','] + tail && ',' !in head && ',' !in tail
    ensures ReplaceAll(t, ",", ".") == head + "." + tail
  {
    ReplaceCharSplit(head, tail, ',', ".");
    ReplaceCharAbsent(tail, ',', ".");
  }

  lemma AmountExample()
    ensures AmountAt("1234.50") == 1234.5
  {
    var d := "1234.50";
    WholeDigitsExample();
    assert d[..4] == "1234" && d[4..] == ".50" && d[4..][1..] == "50";
    FracDigitsExample();
    assert "50"[..2] == "50";
    assert Pow10(2) == 100;
  }

  lemma WholeDigitsExample()
    ensures DigitRun("1234.50") == 4 && DigitsValue("1234.50"[..4]) == 1234
  {
    var d := "1234.50";
    assert DigitRun(d) == 4;
    assert d[..4] == "1234";
    assert "12"[..1] == "1" && "123"[..2] == "12" && "1234"[..3] == "123";
    assert DigitsValue("1") == 1;
    assert DigitsValue("12") == 12;
    assert DigitsValue("123") == 123;
  }

  lemma FracDigitsExample()
    ensures DigitRun("50") == 2 && DigitsValue("50") == 50
  {
    assert DigitRun("50") == 2;
    assert "50"[..2] == "50";
    assert "50"[..1] == "5" && DigitsValue("5") == 5;
  }

  // ------------------------------------------------------------------- photos

  /** The image attributes a scraper reads: `src`, `data-src`, `data-srcset`. */
  datatype Img = Img(src: Option<string>, dataSrc: Option<string>, dataSrcset: Option<string>)

  predicate Truthy(s: Option<string>) { s.Some? && s.value != "" }

  /** Python's `a or b`: `a` when it is a non-empty string, otherwise `b`. */
  function Or(a: Option<string>, b: Option<string>): (r: Option<string>)
    ensures r == a || r == b
    ensures Truthy(r) <==> Truthy(a) || Truthy(b)
  {
    if Truthy(a) then a else b
  }

  /**
   * The photo URL of a card: the first non-empty image attribute, prefixed
   * with "https:" when it is protocol-relative.
   */
  function PhotoOf(img: Option<Img>): (photo: Option<string>)
  {
    if img.None? then None
    else
      var p := Or(Or(img.value.src, img.value.dataSrc), img.value.dataSrcset);
      if Truthy(p) && StartsWith(p.value, "//") then Some("https:" + p.value) else p
  }

  /** A protocol-relative photo URL gets the https scheme and nothing else changes. */
  lemma PhotoScheme(img: Img)
    ensures var p := Or(Or(img.src, img.dataSrc), img.dataSrcset);
      PhotoOf(Some(img)) == if Truthy(p) && StartsWith(p.value, "//") then Some("https:" + p.value) else p
    ensures Truthy(PhotoOf(Some(img))) <==> Truthy(img.src) || Truthy(img.dataSrc) || Truthy(img.dataSrcset)
    ensures PhotoOf(Some(img)).Some? && img.src.Some? && img.src.value != "" && !StartsWith(img.src.value, "//")
            ==> PhotoOf(Some(img)) == img.src
  {
  }
}
