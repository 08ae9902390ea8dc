/** Input masks described by their groups, as a user reads them: "DD.DDD.DDD-D"
    is two digits, then "." and three digits, then "." and three digits, then
    "-" and one digit. `Render` is this reading, independent of how the form
    component builds its strings; `Spliced` is the way the component builds
    them (insert one separator at an absolute index, several times over, then
    cut). The theorem `SplicedRenders` connects the two. */
module Masks {
  import opened Text

  /** A group of `size` kept characters, introduced by `lead` when reached. */
  datatype Group = Group(lead: string, size: nat)

  /** Fill the groups with the characters of `d` in order; a group's lead is
      written only when at least one character is left for it. */
  function Render(d: string, gs: seq<Group>): string
    decreases |gs|
  {
    if gs == [] || d == [] then []
    else gs[0].lead + Prefix(d, gs[0].size) + Render(Drop(d, gs[0].size), gs[1..])
  }

  /** The number of kept characters the mask holds. */
  function Capacity(gs: seq<Group>): nat {
    if gs == [] then 0 else gs[0].size + Capacity(gs[1..])
  }

  /** The length of a completely filled mask. */
  function Width(gs: seq<Group>): nat {
    if gs == [] then 0 else |gs[0].lead| + gs[0].size + Width(gs[1..])
  }

  /** The placeholder run of one group: `n` times '#'. */
  function Holes(n: nat): (h: string)
    ensures |h| == n
    ensures forall i :: 0 <= i < n ==> h[i] == '#'
  {
    if n == 0 then [] else "#" + Holes(n - 1)
  }

  /** The mask written out with '#' for every kept character, e.g. "##.###.###-#". */
  function Template(gs: seq<Group>): (t: string)
    ensures |t| == Width(gs)
  {
    if gs == [] then [] else gs[0].lead + Holes(gs[0].size) + Template(gs[1..])
  }

  /** The length of the rendering of `n` characters. */
  function RenderLength(n: nat, gs: seq<Group>): nat
    decreases |gs|
  {
    if gs == [] || n == 0 then 0
    else |gs[0].lead| + Min(n, gs[0].size) + RenderLength(n - Min(n, gs[0].size), gs[1..])
  }

  /** Lead characters are never of the kept class, and never the hole marker. */
  predicate SeparatorsOnly(cls: CharClass, gs: seq<Group>) {
    forall i, j :: 0 <= i < |gs| && 0 <= j < |gs[i].lead| ==>
      !Keeps(cls, gs[i].lead[j]) && gs[i].lead[j] != '#'
  }

  predicate NonEmptyGroups(gs: seq<Group>) {
    forall i :: 0 <= i < |gs| ==> gs[i].size > 0
  }

  /** `r` agrees with the template `t` as far as it goes: a kept character
      wherever `t` has '#', and exactly `t`'s separator everywhere else. */
  predicate FitsTemplate(cls: CharClass, r: string, t: string) {
    |r| <= |t| &&
    forall i :: 0 <= i < |r| ==> if t[i] == '#' then Keeps(cls, r[i]) else r[i] == t[i]
  }

  lemma SeparatorsOnlyTail(cls: CharClass, gs: seq<Group>)
    requires gs != [] && SeparatorsOnly(cls, gs)
    ensures SeparatorsOnly(cls, gs[1..])
  {
    forall i, j | 0 <= i < |gs[1..]| && 0 <= j < |gs[1..][i].lead|
      ensures !Keeps(cls, gs[1..][i].lead[j]) && gs[1..][i].lead[j] != '#'
    {
      assert gs[1..][i] == gs[i + 1];
    }
  }

  /** The rendering is exactly as long as `RenderLength` says. */
  lemma {:induction false} RenderHasLength(d: string, gs: seq<Group>)
    ensures |Render(d, gs)| == RenderLength(|d|, gs)
    decreases |gs|
  {
    if gs != [] && d != [] {
      RenderHasLength(Drop(d, gs[0].size), gs[1..]);
    }
  }

  /** The rendering never exceeds the filled mask. */
  lemma {:induction false} RenderWithinWidth(d: string, gs: seq<Group>)
    ensures |Render(d, gs)| <= Width(gs)
    decreases |gs|
  {
    if gs != [] && d != [] {
      RenderWithinWidth(Drop(d, gs[0].size), gs[1..]);
    }
  }

  /** Reading the kept characters back out of a rendering gives the first
      `Capacity` characters of the input, in order. */
  lemma {:induction false} RenderKeeps(cls: CharClass, d: string, gs: seq<Group>)
    requires AllKept(cls, d) && SeparatorsOnly(cls, gs)
    ensures Filter(cls, Render(d, gs)) == Prefix(d, Capacity(gs))
    decreases |gs|
  {
    if gs == [] || d == [] {
    } else {
      var g := gs[0];
      var rest := Drop(d, g.size);
      assert AllKept(cls, rest);
      SeparatorsOnlyTail(cls, gs);
      RenderKeeps(cls, rest, gs[1..]);
      assert forall j :: 0 <= j < |g.lead| ==> !Keeps(cls, g.lead[j]) by {
        forall j | 0 <= j < |g.lead| ensures !Keeps(cls, g.lead[j]) {
          assert gs[0].lead[j] == g.lead[j];
        }
      }
      FilterNone(cls, g.lead);
      var p := Prefix(d, g.size);
      assert AllKept(cls, p);
      FilterKept(cls, p);
      calc {
        Filter(cls, Render(d, gs));
        Filter(cls, (g.lead + p) + Render(rest, gs[1..]));
        { FilterAppend(cls, g.lead + p, Render(rest, gs[1..])); }
        Filter(cls, g.lead + p) + Filter(cls, Render(rest, gs[1..]));
        { FilterAppend(cls, g.lead, p); }
        Filter(cls, g.lead) + Filter(cls, p) + Prefix(rest, Capacity(gs[1..]));
        p + Prefix(rest, Capacity(gs[1..]));
        { PrefixDrop(d, g.size, Capacity(gs[1..])); }
        Prefix(d, Capacity(gs));
      }
    }
  }

  /** Only the first `Capacity` characters matter: the rest is cut. */
  lemma {:induction false} RenderIgnoresOverflow(d: string, gs: seq<Group>)
    requires NonEmptyGroups(gs)
    ensures Render(Prefix(d, Capacity(gs)), gs) == Render(d, gs)
    decreases |gs|
  {
    if gs != [] && d != [] {
      var g := gs[0];
      var p := Prefix(d, Capacity(gs));
      assert p != [];
      assert Prefix(p, g.size) == Prefix(d, g.size);
      assert Drop(p, g.size) == Prefix(Drop(d, g.size), Capacity(gs[1..]));
      assert NonEmptyGroups(gs[1..]) by {
        forall i | 0 <= i < |gs[1..]| ensures gs[1..][i].size > 0 {
          assert gs[1..][i] == gs[i + 1];
        }
      }
      RenderIgnoresOverflow(Drop(d, g.size), gs[1..]);
    }
  }

  /** A rendering agrees with the template of its mask. */
  lemma {:induction false} RenderFits(cls: CharClass, d: string, gs: seq<Group>)
    requires AllKept(cls, d) && SeparatorsOnly(cls, gs)
    ensures FitsTemplate(cls, Render(d, gs), Template(gs))
    decreases |gs|
  {
    if gs != [] && d != [] {
      var g := gs[0];
      var p := Prefix(d, g.size);
      var rest := Drop(d, g.size);
      var holes := Holes(g.size);
      var r := Render(d, gs);
      var t := Template(gs);
      assert AllKept(cls, rest);
      SeparatorsOnlyTail(cls, gs);
      RenderFits(cls, rest, gs[1..]);
      var r' := Render(rest, gs[1..]);
      var t' := Template(gs[1..]);
      assert r == g.lead + p + r';
      assert t == g.lead + holes + t';
      assert |p| < g.size ==> r' == [];
      forall i | 0 <= i < |r|
        ensures if t[i] == '#' then Keeps(cls, r[i]) else r[i] == t[i]
      {
        if i < |g.lead| {
          assert r[i] == g.lead[i] == t[i];
          assert gs[0].lead[i] != '#';
        } else if i < |g.lead| + |p| {
          assert r[i] == p[i - |g.lead|] == d[i - |g.lead|];
          assert t[i] == '#';
        } else {
          assert r[i] == r'[i - |g.lead| - |p|];
          assert t[i] == t'[i - |g.lead| - |p|];
        }
      }
    }
  }

  /** One separator to insert at an absolute index. */
  datatype Mark = Mark(at: nat, sep: char)

  /** Insert the separators one after another, each at its absolute index of
      the string as it stands after the previous insertions. */
  function Spliced(s: string, ms: seq<Mark>): string
    decreases |ms|
  {
    if ms == [] then s else Spliced(InsertAt(s, ms[0].at, ms[0].sep), ms[1..])
  }

  /** Every group after the first is introduced by exactly one character. */
  predicate SingleLeads(gs: seq<Group>) {
    forall i :: 0 <= i < |gs| ==> |gs[i].lead| == 1
  }

  /** The absolute insertion indices of a mask whose first group (without a
      lead) holds `at` characters and whose other groups are `rest`. */
  function MarksFor(at: nat, rest: seq<Group>): seq<Mark>
    requires SingleLeads(rest)
    decreases |rest|
  {
    if rest == [] then []
    else [Mark(at, rest[0].lead[0])] + MarksFor(at + 1 + rest[0].size, rest[1..])
  }

  /** `Spliced` over one to four marks, spelled out. */
  lemma SplicedUnfold(s: string, ms: seq<Mark>)
    requires 1 <= |ms| <= 4
    ensures |ms| == 1 ==> Spliced(s, ms) == InsertAt(s, ms[0].at, ms[0].sep)
    ensures |ms| == 3 ==>
      Spliced(s, ms)
      == InsertAt(InsertAt(InsertAt(s, ms[0].at, ms[0].sep), ms[1].at, ms[1].sep), ms[2].at, ms[2].sep)
    ensures |ms| == 4 ==>
      Spliced(s, ms)
      == InsertAt(InsertAt(InsertAt(InsertAt(s, ms[0].at, ms[0].sep), ms[1].at, ms[1].sep),
                           ms[2].at, ms[2].sep), ms[3].at, ms[3].sep)
  {
    var s1 := InsertAt(s, ms[0].at, ms[0].sep);
    assert Spliced(s, ms) == Spliced(s1, ms[1..]);
    if |ms| > 1 {
      var s2 := InsertAt(s1, ms[1].at, ms[1].sep);
      assert Spliced(s1, ms[1..]) == Spliced(s2, ms[2..]) by {
        assert ms[1..][0] == ms[1] && ms[1..][1..] == ms[2..];
      }
      if |ms| > 2 {
        var s3 := InsertAt(s2, ms[2].at, ms[2].sep);
        assert Spliced(s2, ms[2..]) == Spliced(s3, ms[3..]) by {
          assert ms[2..][0] == ms[2] && ms[2..][1..] == ms[3..];
        }
        if |ms| > 3 {
          var s4 := InsertAt(s3, ms[3].at, ms[3].sep);
          assert Spliced(s3, ms[3..]) == Spliced(s4, ms[4..]) by {
            assert ms[3..][0] == ms[3] && ms[3..][1..] == ms[4..];
          }
        }
      }
    }
  }

  /** `MarksFor` over one to four groups, spelled out. */
  lemma MarksForUnfold(at: nat, gs: seq<Group>)
    requires 1 <= |gs| <= 4 && SingleLeads(gs)
    ensures |MarksFor(at, gs)| == |gs|
    ensures forall k :: 0 <= k < |gs| ==> MarksFor(at, gs)[k].sep == gs[k].lead[0]
    ensures MarksFor(at, gs)[0].at == at
    ensures |gs| > 1 ==> MarksFor(at, gs)[1].at == at + 1 + gs[0].size
    ensures |gs| > 2 ==> MarksFor(at, gs)[2].at == at + 2 + gs[0].size + gs[1].size
    ensures |gs| > 3 ==> MarksFor(at, gs)[3].at == at + 3 + gs[0].size + gs[1].size + gs[2].size
    decreases |gs|
  {
    var ms := MarksFor(at, gs);
    var tail := MarksFor(at + 1 + gs[0].size, gs[1..]);
    assert ms == [Mark(at, gs[0].lead[0])] + tail;
    assert SingleLeads(gs[1..]) by {
      forall i | 0 <= i < |gs[1..]| ensures |gs[1..][i].lead| == 1 {
        assert gs[1..][i] == gs[i + 1];
      }
    }
    if |gs| == 1 {
      assert tail == [];
    } else {
      MarksForUnfold(at + 1 + gs[0].size, gs[1..]);
      forall k | 1 <= k < |gs| ensures ms[k] == tail[k - 1] && gs[k] == gs[1..][k - 1] {
      }
    }
  }

  lemma {:induction false} SplicedShort(s: string, at: nat, rest: seq<Group>)
    requires SingleLeads(rest) && |s| <= at
    ensures Spliced(s, MarksFor(at, rest)) == s
    decreases |rest|
  {
    if rest != [] {
      var ms := MarksFor(at, rest);
      assert ms[1..] == MarksFor(at + 1 + rest[0].size, rest[1..]);
      SplicedShort(s, at + 1 + rest[0].size, rest[1..]);
    }
  }

  lemma {:induction false} SplicedBehind(a: string, b: string, at: nat, rest: seq<Group>)
    requires SingleLeads(rest)
    ensures Spliced(a + b, MarksFor(|a| + at, rest)) == a + Spliced(b, MarksFor(at, rest))
    decreases |rest|
  {
    if rest != [] {
      SingleLeadsTail(rest);
      var c := rest[0].lead[0];
      var next := at + 1 + rest[0].size;
      var b' := InsertAt(b, at, c);
      assert Spliced(a + b, MarksFor(|a| + at, rest)) == Spliced(a + b', MarksFor(|a| + next, rest[1..])) by {
        var ms := MarksFor(|a| + at, rest);
        assert ms[0] == Mark(|a| + at, c) && ms[1..] == MarksFor(|a| + next, rest[1..]);
        InsertAtBehind(a, b, |a| + at, c);
      }
      assert Spliced(b, MarksFor(at, rest)) == Spliced(b', MarksFor(next, rest[1..])) by {
        var ms := MarksFor(at, rest);
        assert ms[0] == Mark(at, c) && ms[1..] == MarksFor(next, rest[1..]);
      }
      SplicedBehind(a, b', next, rest[1..]);
    }
  }

  lemma SingleLeadsTail(gs: seq<Group>)
    requires gs != [] && SingleLeads(gs)
    ensures SingleLeads(gs[1..])
  {
    forall i | 0 <= i < |gs[1..]| ensures |gs[1..][i].lead| == 1 {
      assert gs[1..][i] == gs[i + 1];
    }
  }

  /** The component's construction of a mask whose first group holds
      `first` characters: splice every separator in, then cut at the width. */
  function Built(d: string, first: nat, rest: seq<Group>): string
    requires SingleLeads(rest)
  {
    Prefix(Spliced(d, MarksFor(first, rest)), first + Width(rest))
  }

  /** One insertion of the component's construction, peeled off. */
  lemma SplicedStep(d: string, first: nat, rest: seq<Group>)
    requires SingleLeads(rest) && rest != [] && |d| > first
    ensures SingleLeads(rest[1..])
    ensures Built(d, first, rest) == d[..first] + [rest[0].lead[0]] + Built(d[first..], rest[0].size, rest[1..])
  {
    SingleLeadsTail(rest);
    var g := rest[0];
    var c := g.lead[0];
    var a := d[..first] + [c];
    var b := d[first..];
    var tail := MarksFor(first + 1 + g.size, rest[1..]);
    var x := Spliced(b, MarksFor(g.size, rest[1..]));
    var w := g.size + Width(rest[1..]);
    assert Spliced(d, MarksFor(first, rest)) == Spliced(a + b, tail) by {
      var ms := MarksFor(first, rest);
      assert ms[0] == Mark(first, c) && ms[1..] == tail;
      assert InsertAt(d, first, c) == a + b;
    }
    assert Spliced(a + b, tail) == a + x by {
      assert |a| + g.size == first + 1 + g.size;
      SplicedBehind(a, b, g.size, rest[1..]);
    }
    assert Built(d, first, rest) == Prefix(a + x, |a| + w) by {
      assert Width(rest) == 1 + w;
    }
    assert Built(b, g.size, rest[1..]) == Prefix(x, w);
    PrefixBehind(a, x, |a| + w);
  }

  /** One group of the reading, peeled off. */
  lemma RenderStep(d: string, first: nat, rest: seq<Group>)
    requires SingleLeads(rest) && rest != [] && |d| > first
    ensures Render(d, [Group("", first)] + rest)
         == d[..first] + [rest[0].lead[0]] + Render(d[first..], [Group("", rest[0].size)] + rest[1..])
  {
    var g := rest[0];
    var c := g.lead[0];
    var b := d[first..];
    var hs := [Group("", g.size)] + rest[1..];
    var tail := Prefix(b, g.size) + Render(Drop(b, g.size), rest[1..]);
    assert Render(b, hs) == tail by {
      assert hs[0] == Group("", g.size) && hs[1..] == rest[1..];
      assert [] + Prefix(b, g.size) == Prefix(b, g.size);
    }
    assert Render(b, rest) == [c] + tail by {
      assert g.lead == [c];
    }
    assert Render(d, [Group("", first)] + rest) == d[..first] + Render(b, rest) by {
      var gs := [Group("", first)] + rest;
      assert gs[0] == Group("", first) && gs[1..] == rest;
      assert Prefix(d, first) == d[..first] && Drop(d, first) == b;
      assert [] + d[..first] == d[..first];
    }
    assert d[..first] + ([c] + tail) == d[..first] + [c] + tail;
  }

  /** The component's way of building a mask (insert at absolute indices, then
      cut at the mask's width) renders exactly the mask's groups. */
  lemma {:induction false} SplicedRenders(d: string, first: nat, rest: seq<Group>)
    requires SingleLeads(rest)
    ensures Built(d, first, rest) == Render(d, [Group("", first)] + rest)
    decreases |rest|
  {
    var gs := [Group("", first)] + rest;
    assert gs[0] == Group("", first) && gs[1..] == rest;
    if |d| <= first {
      SplicedShort(d, first, rest);
      assert Drop(d, first) == [];
    } else if rest == [] {
      assert Render(Drop(d, first), []) == [];
    } else {
      SplicedStep(d, first, rest);
      RenderStep(d, first, rest);
      SplicedRenders(d[first..], rest[0].size, rest[1..]);
    }
  }
}
