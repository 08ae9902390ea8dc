/** The input masks of the registration form (app/components/a.tsx:162-271).
    Each formatter is written the way the component computes it: strip to the
    kept characters, insert each separator at its absolute index when the
    string is long enough, cut at the mask width. Each is then shown to render
    its mask (`Masks.Render`), from which the user-visible promises follow. */
module Formatters {
  import opened Text
  import opened Masks

  /** Nursing-council number, DD.DDD.DDD-D. */
  const CorenMask: seq<Group> := [Group("", 2), Group(".", 3), Group(".", 3), Group("-", 1)]
  /** Postal code, DDDDD-DDD. */
  const CepMask: seq<Group> := [Group("", 5), Group("-", 3)]
  /** Individual tax id, DDD.DDD.DDD-DD. */
  const CpfMask: seq<Group> := [Group("", 3), Group(".", 3), Group(".", 3), Group("-", 2)]
  /** Company tax id, DD.DDD.DDD/DDDD-DD. */
  const CnpjMask: seq<Group> := [Group("", 2), Group(".", 3), Group(".", 3), Group("/", 4), Group("-", 2)]
  /** Mobile number, (DD) D DDDD-DDDD. */
  const CelularMask: seq<Group> := [Group("(", 2), Group(") ", 1), Group(" ", 4), Group("-", 4)]
  /** Random key: the 8-4-4-4 groups of a textual UUID, then a last group of
      sixteen rather than twelve, because the component cuts at 40 characters. */
  const RandomPixMask: seq<Group> := [Group("", 8), Group("-", 4), Group("-", 4), Group("-", 4), Group("-", 16)]

  function FormatCoren(value: string): string {
    if value == "" then value
    else
      var digits := Digits(value);
      var withFirstDot := InsertAt(digits, 2, '.');
      var withSecondDot := InsertAt(withFirstDot, 6, '.');
      var withDash := InsertAt(withSecondDot, 10, '-');
      Prefix(withDash, 12)
  }

  function FormatCep(value: string): string {
    if value == "" then value
    else
      var digits := Digits(value);
      var withDash := InsertAt(digits, 5, '-');
      Prefix(withDash, 9)
  }

  function FormatCpf(value: string): string {
    if value == "" then value
    else
      var digits := Digits(value);
      var withFirstDot := InsertAt(digits, 3, '.');
      var withSecondDot := InsertAt(withFirstDot, 7, '.');
      var withDash := InsertAt(withSecondDot, 11, '-');
      Prefix(withDash, 14)
  }

  function FormatCnpj(value: string): string {
    if value == "" then value
    else
      var digits := Digits(value);
      var withFirstDot := InsertAt(digits, 2, '.');
      var withSecondDot := InsertAt(withFirstDot, 6, '.');
      var withSlash := InsertAt(withSecondDot, 10, '/');
      var withDash := InsertAt(withSlash, 15, '-');
      Prefix(withDash, 18)
  }

  function FormatRandomPix(value: string): string {
    if value == "" then value
    else
      var cleaned := HexDigits(value);
      var first := InsertAt(cleaned, 8, '-');
      var second := InsertAt(first, 13, '-');
      var third := InsertAt(second, 18, '-');
      var fourth := InsertAt(third, 23, '-');
      Prefix(fourth, 40)
  }

  /** The backspace heuristic of the mobile mask: when the raw text got
      shorter but kept as many digits as the previous text, the user deleted a
      mask character, and the last digit is dropped instead. */
  function CelularDigits(value: string, prevValue: Option<string>): string {
    var cleaned := Digits(value);
    if prevValue.Some? && |value| < |prevValue.value|
       && |cleaned| == |Digits(prevValue.value)| && |cleaned| > 0
    then cleaned[..|cleaned| - 1]
    else cleaned
  }

  function FormatCelular(value: string, prevValue: Option<string>): string {
    var cleaned := CelularDigits(value, prevValue);
    var n := |cleaned|;
    var areaCode := if n > 0 then "(" + Substring(cleaned, 0, 2) else "";
    var firstDigit := if n > 2 then ") " + Substring(cleaned, 2, 3) else "";
    var middle := if n > 3 then " " + Substring(cleaned, 3, 7) else "";
    var last := if n > 7 then "-" + Substring(cleaned, 7, 11) else "";
    Prefix(areaCode + firstDigit + middle + last, 16)
  }

  // ---------------------------------------------------------------------
  // Each formatter renders its mask.
  // ---------------------------------------------------------------------

  lemma CorenRendersMask(value: string)
    ensures FormatCoren(value) == Render(Digits(value), CorenMask)
  {
    var d := Digits(value);
    var rest: seq<Group> := [Group(".", 3), Group(".", 3), Group("-", 1)];
    assert [Group("", 2)] + rest == CorenMask;
    assert Spliced(d, MarksFor(2, rest)) == InsertAt(InsertAt(InsertAt(d, 2, '.'), 6, '.'), 10, '-') by {
      assert SingleLeads(rest);
      MarksForUnfold(2, rest);
      SplicedUnfold(d, MarksFor(2, rest));
    }
    SplicedRenders(d, 2, rest);
  }

  lemma CepRendersMask(value: string)
    ensures FormatCep(value) == Render(Digits(value), CepMask)
  {
    var d := Digits(value);
    var rest: seq<Group> := [Group("-", 3)];
    assert [Group("", 5)] + rest == CepMask;
    assert Spliced(d, MarksFor(5, rest)) == InsertAt(d, 5, '-') by {
      assert SingleLeads(rest);
      MarksForUnfold(5, rest);
      SplicedUnfold(d, MarksFor(5, rest));
    }
    SplicedRenders(d, 5, rest);
  }

  lemma CpfRendersMask(value: string)
    ensures FormatCpf(value) == Render(Digits(value), CpfMask)
  {
    var d := Digits(value);
    var rest: seq<Group> := [Group(".", 3), Group(".", 3), Group("-", 2)];
    assert [Group("", 3)] + rest == CpfMask;
    assert Spliced(d, MarksFor(3, rest)) == InsertAt(InsertAt(InsertAt(d, 3, '.'), 7, '.'), 11, '-') by {
      assert SingleLeads(rest);
      MarksForUnfold(3, rest);
      SplicedUnfold(d, MarksFor(3, rest));
    }
    SplicedRenders(d, 3, rest);
  }

  lemma CnpjRendersMask(value: string)
    ensures FormatCnpj(value) == Render(Digits(value), CnpjMask)
  {
    var d := Digits(value);
    var rest: seq<Group> := [Group(".", 3), Group(".", 3), Group("/", 4), Group("-", 2)];
    assert [Group("", 2)] + rest == CnpjMask;
    assert Spliced(d, MarksFor(2, rest)) == InsertAt(InsertAt(InsertAt(InsertAt(d, 2, '.'), 6, '.'), 10, '/'), 15, '-') by {
      assert SingleLeads(rest);
      MarksForUnfold(2, rest);
      SplicedUnfold(d, MarksFor(2, rest));
    }
    SplicedRenders(d, 2, rest);
  }

  lemma RandomPixRendersMask(value: string)
    ensures FormatRandomPix(value) == Render(HexDigits(value), RandomPixMask)
  {
    var d := HexDigits(value);
    var rest: seq<Group> := [Group("-", 4), Group("-", 4), Group("-", 4), Group("-", 16)];
    assert [Group("", 8)] + rest == RandomPixMask;
    assert Spliced(d, MarksFor(8, rest)) == InsertAt(InsertAt(InsertAt(InsertAt(d, 8, '-'), 13, '-'), 18, '-'), 23, '-') by {
      assert SingleLeads(rest);
      MarksForUnfold(8, rest);
      SplicedUnfold(d, MarksFor(8, rest));
    }
    SplicedRenders(d, 8, rest);
  }

  /** The last group of the mobile mask, "-DDDD", from index 7 on. */
  lemma CelularLastGroup(c: string)
    ensures Render(Drop(c, 7), [Group("-", 4)])
      == (if |c| > 7 then "-" + Substring(c, 7, 11) else "")
  {
    var r := Drop(c, 7);
    if r != [] {
      assert Substring(c, 7, 11) == Prefix(r, 4);
      assert [Group("-", 4)][1..] == [];
    }
  }

  /** The last two groups of the mobile mask, " DDDD-DDDD", from index 3 on. */
  lemma CelularMiddleGroups(c: string)
    ensures Render(Drop(c, 3), [Group(" ", 4), Group("-", 4)])
      == (if |c| > 3 then " " + Substring(c, 3, 7) else "")
       + (if |c| > 7 then "-" + Substring(c, 7, 11) else "")
  {
    var r := Drop(c, 3);
    CelularLastGroup(c);
    if r != [] {
      assert Substring(c, 3, 7) == Prefix(r, 4);
      assert Drop(r, 4) == Drop(c, 7);
      assert [Group(" ", 4), Group("-", 4)][1..] == [Group("-", 4)];
    }
  }

  /** The last three groups of the mobile mask, ") D DDDD-DDDD", from index 2 on. */
  lemma CelularTailGroups(c: string)
    ensures Render(Drop(c, 2), CelularMask[1..])
      == (if |c| > 2 then ") " + Substring(c, 2, 3) else "")
       + (if |c| > 3 then " " + Substring(c, 3, 7) else "")
       + (if |c| > 7 then "-" + Substring(c, 7, 11) else "")
  {
    var r := Drop(c, 2);
    CelularMiddleGroups(c);
    assert CelularMask[1..] == [Group(") ", 1), Group(" ", 4), Group("-", 4)];
    if r != [] {
      assert Substring(c, 2, 3) == Prefix(r, 1);
      assert Drop(r, 1) == Drop(c, 3);
      assert CelularMask[1..][1..] == [Group(" ", 4), Group("-", 4)];
    }
  }

  lemma CelularRendersMask(value: string, prevValue: Option<string>)
    ensures FormatCelular(value, prevValue) == Render(CelularDigits(value, prevValue), CelularMask)
  {
    var c := CelularDigits(value, prevValue);
    CelularTailGroups(c);
    RenderWithinWidth(c, CelularMask);
    if c != [] {
      assert Substring(c, 0, 2) == Prefix(c, 2);
      assert Render(c, CelularMask) == "(" + Prefix(c, 2) + Render(Drop(c, 2), CelularMask[1..]);
    }
  }

  // ---------------------------------------------------------------------
  // What a rendering promises.
  // ---------------------------------------------------------------------

  /** The promises shared by every mask: bounded by the mask width, agreeing
      with the mask's template, keeping the first `Capacity` characters in
      order, empty exactly for empty input, and stable under re-rendering. */
  lemma RenderPromises(cls: CharClass, d: string, gs: seq<Group>)
    requires AllKept(cls, d) && SeparatorsOnly(cls, gs) && NonEmptyGroups(gs) && gs != []
    ensures |Render(d, gs)| <= Width(gs)
    ensures FitsTemplate(cls, Render(d, gs), Template(gs))
    ensures Filter(cls, Render(d, gs)) == Prefix(d, Capacity(gs))
    ensures Render(d, gs) == [] <==> d == []
    ensures Render(Filter(cls, Render(d, gs)), gs) == Render(d, gs)
  {
    RenderWithinWidth(d, gs);
    RenderFits(cls, d, gs);
    RenderKeeps(cls, d, gs);
    RenderIgnoresOverflow(d, gs);
    if d != [] {
      assert gs[0].size > 0;
      assert |Render(d, gs)| >= |Prefix(d, gs[0].size)| > 0;
    }
  }

  /** The shape of each mask, as its template, capacity and width. */
  lemma CorenMaskShape()
    ensures Template(CorenMask) == "##.###.###-#" && Capacity(CorenMask) == 9
    ensures SeparatorsOnly(Decimal, CorenMask) && NonEmptyGroups(CorenMask)
  {
  }

  lemma CepMaskShape()
    ensures Template(CepMask) == "#####-###" && Capacity(CepMask) == 8
    ensures SeparatorsOnly(Decimal, CepMask) && NonEmptyGroups(CepMask)
  {
  }

  lemma CpfMaskShape()
    ensures Template(CpfMask) == "###.###.###-##" && Capacity(CpfMask) == 11
    ensures SeparatorsOnly(Decimal, CpfMask) && NonEmptyGroups(CpfMask)
  {
    CpfTemplate();
  }

  lemma CpfTemplate()
    ensures Template(CpfMask) == "###.###.###-##"
  {
  }

  lemma CnpjMaskShape()
    ensures Template(CnpjMask) == "##.###.###/####-##" && Capacity(CnpjMask) == 14
    ensures SeparatorsOnly(Decimal, CnpjMask) && NonEmptyGroups(CnpjMask)
  {
    CnpjTemplate();
  }

  lemma CnpjTemplate()
    ensures Template(CnpjMask) == "##.###.###/####-##"
  {
  }

  lemma SixteenHoles()
    ensures Holes(16) == "################"
  {
    assert Holes(4) == "####";
    assert Holes(8) == "####" + Holes(4);
    assert Holes(12) == "####" + Holes(8);
  }

  /** A four-place group led by '-' in front of a template, character by character. */
  lemma DashFourAt(rest: seq<Group>)
    ensures var t := Template([Group("-", 4)] + rest);
      |t| == 5 + |Template(rest)| && t[0] == '-'
      && (forall i :: 1 <= i < 5 ==> t[i] == '#')
      && (forall i :: 5 <= i < |t| ==> t[i] == Template(rest)[i - 5])
  {
    assert ([Group("-", 4)] + rest)[1..] == rest;
  }

  /** The random-key template, character by character: '-' at 8, 13, 18
      and 23, a digit place everywhere else. */
  lemma RandomPixLayout()
    ensures |Template(RandomPixMask)| == 40
    ensures forall i :: 0 <= i < 40 ==>
      Template(RandomPixMask)[i] == if i == 8 || i == 13 || i == 18 || i == 23 then '-' else '#'
  {
    var g4 := [Group("-", 16)];
    var g3 := [Group("-", 4)] + g4;
    var g2 := [Group("-", 4)] + g3;
    var g1 := [Group("-", 4)] + g2;
    assert g4[1..] == [];
    DashFourAt(g4);
    DashFourAt(g3);
    DashFourAt(g2);
    assert RandomPixMask == [Group("", 8)] + g1;
    assert ([Group("", 8)] + g1)[1..] == g1;
  }

  lemma RandomPixMaskShape()
    ensures Width(RandomPixMask) == 40 && Capacity(RandomPixMask) == 36
    ensures SeparatorsOnly(Hexadecimal, RandomPixMask) && NonEmptyGroups(RandomPixMask)
  {
    RandomPixLayout();
  }

  lemma CelularMaskShape()
    ensures Template(CelularMask) == "(##) # ####-####" && Capacity(CelularMask) == 11
    ensures SeparatorsOnly(Decimal, CelularMask) && NonEmptyGroups(CelularMask)
  {
  }

  /** Formatting the nursing-council number: at most 12 characters laid out as
      DD.DDD.DDD-D, the first 9 input digits in order, "" exactly when the
      input has no digit, and formatting again changes nothing. */
  lemma CorenPromises(value: string)
    ensures |FormatCoren(value)| <= 12
    ensures FitsTemplate(Decimal, FormatCoren(value), "##.###.###-#")
    ensures Digits(FormatCoren(value)) == Prefix(Digits(value), 9)
    ensures FormatCoren(value) == "" <==> Digits(value) == ""
    ensures FormatCoren(FormatCoren(value)) == FormatCoren(value)
  {
    CorenMaskShape();
    CorenRendersMask(value);
    CorenRendersMask(FormatCoren(value));
    RenderPromises(Decimal, Digits(value), CorenMask);
  }

  /** Formatting the postal code: DDDDD-DDD, the first 8 digits, idempotent. */
  lemma CepPromises(value: string)
    ensures |FormatCep(value)| <= 9
    ensures FitsTemplate(Decimal, FormatCep(value), "#####-###")
    ensures Digits(FormatCep(value)) == Prefix(Digits(value), 8)
    ensures FormatCep(value) == "" <==> Digits(value) == ""
    ensures FormatCep(FormatCep(value)) == FormatCep(value)
  {
    CepMaskShape();
    CepRendersMask(value);
    CepRendersMask(FormatCep(value));
    RenderPromises(Decimal, Digits(value), CepMask);
  }

  /** Formatting the individual tax id: DDD.DDD.DDD-DD, the first 11 digits,
      idempotent. */
  lemma CpfPromises(value: string)
    ensures |FormatCpf(value)| <= 14
    ensures FitsTemplate(Decimal, FormatCpf(value), "###.###.###-##")
    ensures Digits(FormatCpf(value)) == Prefix(Digits(value), 11)
    ensures FormatCpf(value) == "" <==> Digits(value) == ""
    ensures FormatCpf(FormatCpf(value)) == FormatCpf(value)
  {
    CpfMaskShape();
    CpfRendersMask(value);
    CpfRendersMask(FormatCpf(value));
    RenderPromises(Decimal, Digits(value), CpfMask);
  }

  /** Formatting the company tax id: DD.DDD.DDD/DDDD-DD, the first 14 digits,
      idempotent. */
  lemma CnpjPromises(value: string)
    ensures |FormatCnpj(value)| <= 18
    ensures FitsTemplate(Decimal, FormatCnpj(value), "##.###.###/####-##")
    ensures Digits(FormatCnpj(value)) == Prefix(Digits(value), 14)
    ensures FormatCnpj(value) == "" <==> Digits(value) == ""
    ensures FormatCnpj(FormatCnpj(value)) == FormatCnpj(value)
  {
    CnpjMaskShape();
    CnpjRendersMask(value);
    CnpjRendersMask(FormatCnpj(value));
    RenderPromises(Decimal, Digits(value), CnpjMask);
  }

  /** Formatting the random key: only hexadecimal characters, case kept,
      '-' at indices 8, 13, 18 and 23 when reached, at most 40 characters
      (36 hexadecimal digits), idempotent. */
  lemma RandomPixPromises(value: string)
    ensures |FormatRandomPix(value)| <= 40
    ensures forall i :: 0 <= i < |FormatRandomPix(value)| ==>
      if i == 8 || i == 13 || i == 18 || i == 23 then FormatRandomPix(value)[i] == '-'
      else IsHex(FormatRandomPix(value)[i])
    ensures HexDigits(FormatRandomPix(value)) == Prefix(HexDigits(value), 36)
    ensures FormatRandomPix(value) == "" <==> HexDigits(value) == ""
    ensures FormatRandomPix(FormatRandomPix(value)) == FormatRandomPix(value)
  {
    var r := FormatRandomPix(value);
    RandomPixMaskShape();
    RandomPixRendersMask(value);
    RenderPromises(Hexadecimal, HexDigits(value), RandomPixMask);
    assert forall i :: 0 <= i < |r| ==>
      if i == 8 || i == 13 || i == 18 || i == 23 then r[i] == '-' else IsHex(r[i])
    by {
      RandomPixLayout();
    }
    assert FormatRandomPix(r) == r by {
      RandomPixRendersMask(r);
    }
  }

  /** Formatting a mobile number: at most 16 characters laid out as
      (DD) D DDDD-DDDD. When the text got shorter but kept its digit count,
      exactly the last digit is dropped; otherwise the first 11 digits are
      kept. No digit gives "". Re-formatting the result, with or without it
      as the previous text, changes nothing. */
  lemma CelularPromises(value: string, prevValue: Option<string>)
    ensures |FormatCelular(value, prevValue)| <= 16
    ensures FitsTemplate(Decimal, FormatCelular(value, prevValue), "(##) # ####-####")
    ensures var cleaned := Digits(value);
      if prevValue.Some? && |value| < |prevValue.value|
         && |cleaned| == |Digits(prevValue.value)| && |cleaned| > 0
      then Digits(FormatCelular(value, prevValue)) == Prefix(cleaned[..|cleaned| - 1], 11)
      else Digits(FormatCelular(value, prevValue)) == Prefix(cleaned, 11)
    ensures Digits(value) == "" ==> FormatCelular(value, prevValue) == ""
    ensures var r := FormatCelular(value, prevValue);
      FormatCelular(r, Some(r)) == r && FormatCelular(r, None) == r
  {
    CelularMaskShape();
    CelularRendersMask(value, prevValue);
    var c := CelularDigits(value, prevValue);
    assert AllKept(Decimal, c);
    RenderPromises(Decimal, c, CelularMask);
    var r := FormatCelular(value, prevValue);
    CelularRendersMask(r, Some(r));
    CelularRendersMask(r, None);
  }

  // ---------------------------------------------------------------------
  // Worked examples.
  // ---------------------------------------------------------------------

  lemma CepExample()
    ensures FormatCep("12345678") == "12345-678"
  {
    var v := "12345678";
    assert Digits(v) == v by {
      assert AllKept(Decimal, v);
      FilterKept(Decimal, v);
    }
    CepExampleDash();
    CepOfDigits(v, "12345-678");
  }

  lemma CepExampleDash()
    ensures InsertAt("12345678", 5, '-') == "12345-678"
  {
    InsertAtSplit("12345", "678", '-');
  }

  /** "12345678901234" is shown as "12.345.678-9": the first nine digits, masked. */
  lemma CorenExample()
    ensures FormatCoren("12345678901234") == "12.345.678-9"
  {
    var v := "12345678901234";
    assert Digits(v) == v by {
      assert AllKept(Decimal, v);
      FilterKept(Decimal, v);
    }
    CorenExampleDots();
    CorenExampleDash();
    CorenOfDigits(v, "12.345.678-901234");
  }

  lemma CorenExampleDots()
    ensures InsertAt(InsertAt("12345678901234", 2, '.'), 6, '.') == "12.345.678901234"
  {
    InsertAtSplit("12", "345678901234", '.');
    InsertAtSplit("12.345", "678901234", '.');
  }

  lemma CorenExampleDash()
    ensures InsertAt("12.345.678901234", 10, '-') == "12.345.678-901234"
    ensures Prefix("12.345.678-901234", 12) == "12.345.678-9"
  {
    InsertAtSplit("12.345.678", "901234", '-');
    PrefixBehind("12.345.678-9", "01234", 12);
  }

  lemma CorenOfDigits(v: string, w: string)
    requires v != "" && Digits(v) == v
    requires InsertAt(InsertAt(InsertAt(v, 2, '.'), 6, '.'), 10, '-') == w
    ensures FormatCoren(v) == Prefix(w, 12)
  {
  }

  /** "21987654321" is shown as "(21) 9 8765-4321". */
  lemma CelularExample()
    ensures FormatCelular("21987654321", None) == "(21) 9 8765-4321"
  {
    var v := "21987654321";
    assert Digits(v) == v by {
      assert AllKept(Decimal, v);
      FilterKept(Decimal, v);
    }
    CelularExampleParts();
    CelularOfDigits(v, "(21) 9 8765-4321");
  }

  lemma CelularExampleParts()
    ensures Substring("21987654321", 0, 2) == "21"
    ensures Substring("21987654321", 2, 3) == "9"
    ensures Substring("21987654321", 3, 7) == "8765"
    ensures Substring("21987654321", 7, 11) == "4321"
    ensures "(" + "21" + (") " + "9") + (" " + "8765") + ("-" + "4321") == "(21) 9 8765-4321"
  {
  }

  lemma CelularOfDigits(v: string, w: string)
    requires |v| == 11 && Digits(v) == v
    requires "(" + Substring(v, 0, 2) + (") " + Substring(v, 2, 3)) + (" " + Substring(v, 3, 7))
      + ("-" + Substring(v, 7, 11)) == w
    requires |w| == 16
    ensures FormatCelular(v, None) == w
  {
  }

  lemma CepOfDigits(v: string, w: string)
    requires v != "" && Digits(v) == v && InsertAt(v, 5, '-') == w && |w| <= 9
    ensures FormatCep(v) == w
  {
  }

  /** Typing one more digit at the end of a formatted mobile number formats
      the longer digit string: the heuristic stays out of the way. */
  lemma CelularTyping(d: string, x: char)
    requires AllKept(Decimal, d) && |d| < 11 && IsDigit(x)
    ensures var shown := FormatCelular(d, None);
      FormatCelular(shown + [x], Some(shown)) == FormatCelular(d + [x], None)
  {
    var shown := FormatCelular(d, None);
    assert Digits(shown) == d by {
      FilterKept(Decimal, d);
      CelularPromises(d, None);
    }
    assert CelularDigits(shown + [x], Some(shown)) == d + [x] by {
      FilterKept(Decimal, [x]);
      FilterAppend(Decimal, shown, [x]);
    }
    assert CelularDigits(d + [x], None) == d + [x] by {
      FilterKept(Decimal, d + [x]);
    }
    CelularRendersMask(shown + [x], Some(shown));
    CelularRendersMask(d + [x], None);
  }

  /** Deleting a mask character ('(', ')', ' ' or '-') of a formatted mobile
      number keeps the digit count, so the last digit goes instead. */
  lemma CelularDeleteSeparator(d: string, i: nat)
    requires AllKept(Decimal, d) && 0 < |d| <= 11
    requires i < |FormatCelular(d, None)| && !IsDigit(FormatCelular(d, None)[i])
    ensures var shown := FormatCelular(d, None);
      FormatCelular(shown[..i] + shown[i + 1..], Some(shown)) == FormatCelular(d[..|d| - 1], None)
  {
    var shown := FormatCelular(d, None);
    var value := shown[..i] + shown[i + 1..];
    assert Digits(shown) == d by {
      FilterKept(Decimal, d);
      CelularPromises(d, None);
    }
    assert Digits(value) == d by {
      FilterSkip(Decimal, shown, i);
    }
    assert |value| < |shown|;
    assert CelularDigits(value, Some(shown)) == d[..|d| - 1];
    assert CelularDigits(d[..|d| - 1], None) == d[..|d| - 1] by {
      FilterKept(Decimal, d[..|d| - 1]);
    }
    CelularRendersMask(value, Some(shown));
    CelularRendersMask(d[..|d| - 1], None);
  }
}
