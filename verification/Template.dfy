/** Placeholder substitution in the Janus configuration templates (app/services/jcfg_renderer.py). */
module Template {

  /** One entry of the substitution dict. */
  datatype Sub = Sub(key: string, value: string)

  function Token(key: string): string {
    "@" + key + "@"
  }

  predicate StartsWith(s: string, pat: string) {
    |pat| <= |s| && s[..|pat|] == pat
  }

  /** Python's `str.replace`: leftmost occurrences, non-overlapping, the result not rescanned. */
  function Replace(s: string, pat: string, v: string): string
    requires pat != ""
    decreases |s|
  {
    if s == "" then ""
    else if StartsWith(s, pat) then v + Replace(s[|pat|..], pat, v)
    else [s[0]] + Replace(s[1..], pat, v)
  }

  function ApplyAll(text: string, subs: seq<Sub>): string {
    if subs == [] then text
    else
      var last := subs[|subs| - 1];
      Replace(ApplyAll(text, subs[..|subs| - 1]), Token(last.key), last.value)
  }

  method Apply(text: string, subs: seq<Sub>) returns (out: string)
    ensures out == ApplyAll(text, subs)
  {
    out := text;
    for i := 0 to |subs|
      invariant out == ApplyAll(text, subs[..i])
    {
      out := Replace(out, Token(subs[i].key), subs[i].value);
      assert subs[..i + 1][..i] == subs[..i];
    }
    assert subs[..|subs|] == subs;
  }
}

/** Sequential replacement fills all holes of a template at once, in any order of the dict, as long
    as no text that ends up between two holes is itself a placeholder name. */
module TemplateLaws {
  import opened Template

  // ---------- templates ----------

  /** A placeholder and the literal text that follows it. */
  datatype Hole = Hole(key: string, lit: string)

  type Filling = map<string, string>

  predicate Plain(s: string) {
    '@' !in s
  }

  predicate PlainHoles(head: string, holes: seq<Hole>) {
    Plain(head) && forall h :: h in holes ==> Plain(h.key) && Plain(h.lit)
  }

  predicate PlainFilling(f: Filling) {
    forall k :: k in f ==> Plain(k) && Plain(f[k])
  }

  function Shown(key: string, f: Filling): string {
    if key in f then f[key] else Token(key)
  }

  /** The template's text with the holes of `f` filled, all at once. */
  function TextOf(head: string, holes: seq<Hole>, f: Filling): string
    decreases holes
  {
    if holes == [] then head
    else head + Shown(holes[0].key, f) + TextOf(holes[0].lit, holes[1..], f)
  }

  // ---------- one replacement ----------

  lemma PrefixAt(s: string, pat: string, i: nat)
    requires StartsWith(s, pat) && i < |pat|
    ensures s[i] == pat[i]
  {
    assert s[..|pat|][i] == s[i];
  }

  lemma {:induction false} ReplaceSkips(a: string, s: string, k: string, v: string)
    requires Plain(a)
    ensures Replace(a + s, Token(k), v) == a + Replace(s, Token(k), v)
    decreases a
  {
    if a == "" {
      assert a + s == s;
    } else {
      assert (a + s)[1..] == a[1..] + s;
      assert (a + s)[0] == a[0] != '@' && Token(k)[0] == '@';
      ReplaceSkips(a[1..], s, k, v);
      assert a + Replace(s, Token(k), v) == [a[0]] + (a[1..] + Replace(s, Token(k), v));
    }
  }

  /** Behind a fence, only the whole text up to the next fence can be a name. */
  lemma FenceMatches(h: string, k: string, tail: string)
    requires Plain(h) && Plain(k)
    ensures StartsWith("@" + h + "@" + tail, Token(k)) <==> h == k
  {
    var s, pat := "@" + h + "@" + tail, Token(k);
    assert s[|h| + 1] == '@' && pat[|k| + 1] == '@';
    if |h| == |k| {
      assert s[..|pat|] == Token(h);
      assert Token(h)[1..|h| + 1] == h && Token(k)[1..|k| + 1] == k;
    } else if StartsWith(s, pat) {
      PrefixAt(s, pat, |k| + 1);
      if |h| < |k| { PrefixAt(s, pat, |h| + 1); }
    }
  }

  /** The last fence of a text opens nothing. */
  lemma LastFence(lit: string, k: string)
    requires Plain(lit)
    ensures !StartsWith("@" + lit, Token(k))
  {
    if StartsWith("@" + lit, Token(k)) {
      PrefixAt("@" + lit, Token(k), |k| + 1);
    }
  }

  lemma StepOverFence(s: string, k: string, v: string)
    requires !StartsWith("@" + s, Token(k))
    ensures Replace("@" + s, Token(k), v) == "@" + Replace(s, Token(k), v)
  {
    assert ("@" + s)[1..] == s;
  }

  lemma FillHole(h: Hole, rest: string, k: string, v: string)
    requires Plain(h.key) && Plain(k) && h.key == k
    ensures Replace(Token(h.key) + rest, Token(k), v) == v + Replace(rest, Token(k), v)
  {
    var s := Token(h.key) + rest;
    assert s[..|Token(k)|] == Token(k) && s[|Token(k)|..] == rest;
  }

  /** A hole of another name stays, and the scan goes on at its closing fence. */
  lemma SkipHole(key: string, rest: string, k: string, v: string)
    requires Plain(key) && Plain(k) && key != k
    ensures Replace(Token(key) + rest, Token(k), v) == "@" + key + Replace("@" + rest, Token(k), v)
  {
    FenceMatches(key, k, rest);
    assert "@" + key + "@" + rest == Token(key) + rest == "@" + (key + ("@" + rest));
    StepOverFence(key + ("@" + rest), k, v);
    ReplaceSkips(key, "@" + rest, k, v);
    assert "@" + (key + Replace("@" + rest, Token(k), v)) == "@" + key + Replace("@" + rest, Token(k), v);
  }

  /** One hole and what follows it, `after` being what the scan makes of the rest. */
  lemma ReplaceAtHole(head: string, h: Hole, tail: string, after: string, k: string, v: string)
    requires Plain(head) && Plain(h.key) && Plain(k)
    requires Replace(tail, Token(k), v) == after && (h.key != k ==> !StartsWith("@" + tail, Token(k)))
    ensures Replace(head + Token(h.key) + tail, Token(k), v) == head + Shown(h.key, map[k := v]) + after
  {
    assert head + Token(h.key) + tail == head + (Token(h.key) + tail);
    ReplaceSkips(head, Token(h.key) + tail, k, v);
    if h.key == k {
      FillHole(h, tail, k, v);
      assert head + (v + after) == head + v + after;
    } else {
      SkipHole(h.key, tail, k, v);
      StepOverFence(tail, k, v);
      assert head + ("@" + h.key + ("@" + after)) == head + Token(h.key) + after;
    }
  }

  /** A literal between two holes is the name being replaced, and its left hole is another. */
  predicate Spurious(holes: seq<Hole>, k: string)
    decreases holes
  {
    |holes| >= 2 && ((holes[0].lit == k && holes[0].key != k) || Spurious(holes[1..], k))
  }

  /** One replacement fills exactly the holes of its name when no literal is spurious. */
  lemma {:induction false} ReplaceFills(head: string, holes: seq<Hole>, k: string, v: string)
    requires PlainHoles(head, holes) && Plain(k) && !Spurious(holes, k)
    ensures Replace(TextOf(head, holes, map[]), Token(k), v) == TextOf(head, holes, map[k := v])
    decreases holes
  {
    if holes == [] {
      ReplaceSkips(head, "", k, v);
      assert head + "" == head;
    } else {
      var h, rest := holes[0], holes[1..];
      ReplaceFills(h.lit, rest, k, v);
      if h.key != k { ClosingFence(h, rest, k); }
      ReplaceAtHole(head, h, TextOf(h.lit, rest, map[]), TextOf(h.lit, rest, map[k := v]), k, v);
    }
  }

  /** A spurious literal is consumed with the fences of its neighbours. */
  lemma SpuriousAt(head: string, key: string, k: string, v: string, nextKey: string, rest: string)
    requires Plain(head) && Plain(key) && Plain(k) && Plain(nextKey) && key != k
    ensures Replace(head + (Token(key) + (k + (Token(nextKey) + rest))), Token(k), v) ==
      (head + ("@" + key)) + (v + (nextKey + Replace("@" + rest, Token(k), v)))
  {
    var tail, after := k + (Token(nextKey) + rest), nextKey + ("@" + rest);
    assert "@" + tail == Token(k) + after;
    FillHole(Hole(k, ""), after, k, v);
    ReplaceSkips(nextKey, "@" + rest, k, v);
    ReplaceSkips(head, Token(key) + tail, k, v);
    SkipHole(key, tail, k, v);
  }

  lemma DifferAfter(front: string, a: string, b: string)
    requires a != b
    ensures front + a != front + b
  {
    assert (front + a)[|front|..] == a && (front + b)[|front|..] == b;
  }

  lemma SpuriousHere(head: string, holes: seq<Hole>, k: string, v: string)
    requires PlainHoles(head, holes) && Plain(k) && Plain(v)
    requires |holes| >= 2 && holes[0].lit == k && holes[0].key != k && holes[1].key != ""
    ensures Replace(TextOf(head, holes, map[]), Token(k), v) != TextOf(head, holes, map[k := v])
  {
    var key, nextKey, rest := holes[0].key, holes[1].key, TextOf(holes[1].lit, holes[1..][1..], map[]);
    TwoHoles(head, holes);
    SpuriousAt(head, key, k, v, nextKey, rest);
    FenceStays(head, holes, k, v);
    NoFenceFirst(v, nextKey, Replace("@" + rest, Token(k), v));
    var got, filled := v + (nextKey + Replace("@" + rest, Token(k), v)), TextOf(k, holes[1..], map[k := v]);
    assert got[0] != ("@" + filled)[0];
    DifferAfter(head + ("@" + key), got, "@" + filled);
  }

  lemma TwoHoles(head: string, holes: seq<Hole>)
    requires |holes| >= 2
    ensures TextOf(head, holes, map[]) ==
      head + (Token(holes[0].key) + (holes[0].lit + (Token(holes[1].key) + TextOf(holes[1].lit, holes[1..][1..], map[]))))
  {
    var rest := holes[1..];
    assert TextOf(holes[0].lit, rest, map[]) == holes[0].lit + (Token(rest[0].key) + TextOf(rest[0].lit, rest[1..], map[]));
  }

  /** A hole of another name stays behind its fence. */
  lemma FenceStays(head: string, holes: seq<Hole>, k: string, v: string)
    requires holes != [] && holes[0].key != k
    ensures TextOf(head, holes, map[k := v]) ==
      (head + ("@" + holes[0].key)) + ("@" + TextOf(holes[0].lit, holes[1..], map[k := v]))
  {
  }

  lemma NoFenceFirst(v: string, key: string, rest: string)
    requires Plain(v) && Plain(key) && key != ""
    ensures (v + (key + rest))[0] != '@'
  {
    assert (v + (key + rest))[0] == if v != "" then v[0] else key[0];
  }

  lemma {:induction false} SpuriousBreaks(head: string, holes: seq<Hole>, k: string, v: string)
    requires PlainHoles(head, holes) && Plain(k) && Plain(v) && Spurious(holes, k)
    requires forall h :: h in holes ==> h.key != ""
    ensures Replace(TextOf(head, holes, map[]), Token(k), v) != TextOf(head, holes, map[k := v])
    decreases holes
  {
    var h, rest := holes[0], holes[1..];
    if h.lit == k && h.key != k {
      SpuriousHere(head, holes, k, v);
    } else {
      SpuriousBreaks(h.lit, rest, k, v);
      if h.key != k { ClosingFence(h, rest, k); }
      var after := Replace(TextOf(h.lit, rest, map[]), Token(k), v);
      ReplaceAtHole(head, h, TextOf(h.lit, rest, map[]), after, k, v);
      DifferAfter(head + Shown(h.key, map[k := v]), after, TextOf(h.lit, rest, map[k := v]));
    }
  }

  /** One `str.replace` fills exactly the holes of its name if and only if no literal between two
      holes is that name behind a hole of another name. */
  lemma OneReplacementIff(head: string, holes: seq<Hole>, k: string, v: string)
    requires PlainHoles(head, holes) && Plain(k) && Plain(v) && forall h :: h in holes ==> h.key != ""
    ensures Replace(TextOf(head, holes, map[]), Token(k), v) == TextOf(head, holes, map[k := v]) <==> !Spurious(holes, k)
  {
    if Spurious(holes, k) { SpuriousBreaks(head, holes, k, v); } else { ReplaceFills(head, holes, k, v); }
  }

  lemma {:induction false} NoneSpurious(holes: seq<Hole>, k: string)
    requires forall i :: 0 <= i < |holes| - 1 ==> holes[i].lit != k
    ensures !Spurious(holes, k)
    decreases holes
  {
    if |holes| >= 2 { NoneSpurious(holes[1..], k); }
  }

  lemma HoleText(lit: string, rest: seq<Hole>)
    requires rest != []
    ensures TextOf(lit, rest, map[]) == lit + ("@" + (rest[0].key + ("@" + TextOf(rest[0].lit, rest[1..], map[]))))
  {
  }

  lemma ClosingFence(h: Hole, rest: seq<Hole>, k: string)
    requires Plain(h.lit) && Plain(k) && (rest != [] ==> h.lit != k)
    ensures !StartsWith("@" + TextOf(h.lit, rest, map[]), Token(k))
  {
    if rest == [] {
      LastFence(h.lit, k);
    } else {
      var after := rest[0].key + ("@" + TextOf(rest[0].lit, rest[1..], map[]));
      HoleText(h.lit, rest);
      assert "@" + (h.lit + ("@" + after)) == "@" + h.lit + "@" + after;
      FenceMatches(h.lit, k, after);
    }
  }

  // ---------- partially filled templates ----------

  /** Absorbs the filled holes into the literals around them. */
  function Absorb(head: string, holes: seq<Hole>, f: Filling): (string, seq<Hole>)
    decreases holes
  {
    if holes == [] then (head, [])
    else if holes[0].key in f then Absorb(head + f[holes[0].key] + holes[0].lit, holes[1..], f)
    else
      var (lit, rest) := Absorb(holes[0].lit, holes[1..], f);
      (head, [Hole(holes[0].key, lit)] + rest)
  }

  lemma {:induction false} AbsorbText(head: string, holes: seq<Hole>, f: Filling, g: Filling)
    requires f.Keys !! g.Keys
    ensures var (head', holes') := Absorb(head, holes, f);
      TextOf(head', holes', g) == TextOf(head, holes, f + g)
    decreases holes
  {
    if holes != [] {
      var h, rest := holes[0], holes[1..];
      if h.key in f {
        var joined := head + f[h.key] + h.lit;
        AbsorbText(joined, rest, f, g);
        HeadSplits(head + f[h.key], h.lit, rest, f + g);
      } else {
        AbsorbText(h.lit, rest, f, g);
        var (lit, rest') := Absorb(h.lit, rest, f);
        assert ([Hole(h.key, lit)] + rest')[1..] == rest';
      }
    }
  }

  lemma HeadSplits(a: string, b: string, holes: seq<Hole>, f: Filling)
    ensures TextOf(a + b, holes, f) == a + TextOf(b, holes, f)
  {
    if holes != [] {
      var s, t := Shown(holes[0].key, f), TextOf(holes[0].lit, holes[1..], f);
      assert (a + b) + s + t == a + (b + s + t);
    }
  }

  /** What can stand between two fences at the head of `holes` while holes are being filled. */
  function GapsFrom(cur: string, holes: seq<Hole>, f: Filling): set<string>
    decreases holes
  {
    if holes == [] then {}
    else {cur} + if holes[0].key in f then GapsFrom(cur + f[holes[0].key] + holes[0].lit, holes[1..], f) else {}
  }

  /** Everything that can ever stand between two holes: each literal between neighbours, and each
      stretch of literals and values between holes further apart. */
  function Gaps(holes: seq<Hole>, f: Filling): set<string>
    decreases holes
  {
    if holes == [] then {} else GapsFrom(holes[0].lit, holes[1..], f) + Gaps(holes[1..], f)
  }

  /** The condition under which the order of the dict cannot matter. */
  predicate Unambiguous(head: string, holes: seq<Hole>, f: Filling) {
    PlainHoles(head, holes) && PlainFilling(f) && Gaps(holes, f) !! f.Keys
  }

  lemma {:induction false} AbsorbPlain(head: string, holes: seq<Hole>, f: Filling)
    requires PlainHoles(head, holes) && PlainFilling(f)
    ensures var (head', holes') := Absorb(head, holes, f);
      PlainHoles(head', holes') && forall h :: h in holes' ==> h.key !in f
    decreases holes
  {
    if holes != [] {
      if holes[0].key in f {
        AbsorbPlain(head + f[holes[0].key] + holes[0].lit, holes[1..], f);
      } else {
        AbsorbPlain(holes[0].lit, holes[1..], f);
      }
    }
  }

  /** Literals between the holes left are gaps of the template. */
  lemma {:induction false} AbsorbedGaps(head: string, holes: seq<Hole>, f: Filling, full: Filling)
    requires forall k :: k in f ==> k in full && f[k] == full[k]
    ensures var (head', holes') := Absorb(head, holes, f);
      && (holes' != [] ==> head' in GapsFrom(head, holes, full))
      && forall i :: 0 <= i < |holes'| - 1 ==> holes'[i].lit in Gaps(holes, full)
    decreases holes
  {
    if holes != [] {
      if holes[0].key in f {
        AbsorbedGaps(head + f[holes[0].key] + holes[0].lit, holes[1..], f, full);
      } else {
        AbsorbedGaps(holes[0].lit, holes[1..], f, full);
        var (lit, rest) := Absorb(holes[0].lit, holes[1..], f);
        var (_, holes') := Absorb(head, holes, f);
        forall i | 0 <= i < |holes'| - 1 ensures holes'[i].lit in Gaps(holes, full) {
          if i > 0 { assert holes'[i] == rest[i - 1]; }
        }
      }
    }
  }

  // ---------- main results ----------

  function FillingOf(subs: seq<Sub>): Filling {
    if subs == [] then map[] else FillingOf(subs[..|subs| - 1])[subs[|subs| - 1].key := subs[|subs| - 1].value]
  }

  predicate DistinctKeys(subs: seq<Sub>) {
    forall i, j :: 0 <= i < j < |subs| ==> subs[i].key != subs[j].key
  }

  lemma {:induction false} FillingIs(subs: seq<Sub>)
    requires DistinctKeys(subs)
    ensures forall k :: k in FillingOf(subs) <==> exists s :: s in subs && s.key == k
    ensures forall s :: s in subs ==> s.key in FillingOf(subs) && FillingOf(subs)[s.key] == s.value
    decreases subs
  {
    if subs != [] {
      var init, last := subs[..|subs| - 1], subs[|subs| - 1];
      assert subs == init + [last];
      FillingIs(init);
    }
  }

  /** A partial filling of a template on its way to `full`. */
  predicate Part(f: Filling, full: Filling) {
    forall j :: j in f ==> j in full && f[j] == full[j]
  }

  /** In no partial filling is a name still to be filled the text between two remaining holes, the left
      one of another name. */
  ghost predicate NeverSpurious(head: string, holes: seq<Hole>, full: Filling) {
    forall f, k :: Part(f, full) && k in full && k !in f ==> !Spurious(Absorb(head, holes, f).1, k)
  }

  /** Filling one more hole name in a partly filled template works exactly when the name is not spurious
      there. */
  lemma FillOneMoreIff(head: string, holes: seq<Hole>, f: Filling, full: Filling, k: string)
    requires PlainHoles(head, holes) && PlainFilling(full) && Part(f, full) && k in full && k !in f
    ensures !Spurious(Absorb(head, holes, f).1, k) ==>
      Replace(TextOf(head, holes, f), Token(k), full[k]) == TextOf(head, holes, f[k := full[k]])
    ensures Spurious(Absorb(head, holes, f).1, k) && (forall h :: h in holes ==> h.key != "") ==>
      Replace(TextOf(head, holes, f), Token(k), full[k]) != TextOf(head, holes, f[k := full[k]])
  {
    var (head', holes') := Absorb(head, holes, f);
    AbsorbPlain(head, holes, f);
    AbsorbText(head, holes, f, map[]);
    AbsorbText(head, holes, f, map[k := full[k]]);
    assert f + map[] == f && f + map[k := full[k]] == f[k := full[k]];
    if !Spurious(holes', k) {
      ReplaceFills(head', holes', k, full[k]);
    } else if forall h :: h in holes ==> h.key != "" {
      AbsorbNamed(head, holes, f);
      SpuriousBreaks(head', holes', k, full[k]);
    }
  }

  lemma {:induction false} AbsorbNamed(head: string, holes: seq<Hole>, f: Filling)
    requires forall h :: h in holes ==> h.key != ""
    ensures forall h :: h in Absorb(head, holes, f).1 ==> h.key != ""
    decreases holes
  {
    if holes != [] {
      if holes[0].key in f {
        AbsorbNamed(head + f[holes[0].key] + holes[0].lit, holes[1..], f);
      } else {
        AbsorbNamed(holes[0].lit, holes[1..], f);
      }
    }
  }

  predicate StepFills(head: string, holes: seq<Hole>, f: Filling, k: string, v: string) {
    Replace(TextOf(head, holes, f), Token(k), v) == TextOf(head, holes, f[k := v])
  }

  ghost predicate EveryStepFills(head: string, holes: seq<Hole>, full: Filling) {
    forall f, k :: Part(f, full) && k in full && k !in f ==> StepFills(head, holes, f, k, full[k])
  }

  /** The exact condition on a template and its values: from every partial filling, every next
      replacement fills exactly its own holes if and only if no name is ever spurious. */
  lemma EveryStepFillsIff(head: string, holes: seq<Hole>, full: Filling)
    requires PlainHoles(head, holes) && PlainFilling(full) && forall h :: h in holes ==> h.key != ""
    ensures EveryStepFills(head, holes, full) <==> NeverSpurious(head, holes, full)
  {
    forall f, k | Part(f, full) && k in full && k !in f
      ensures StepFills(head, holes, f, k, full[k]) <==> !Spurious(Absorb(head, holes, f).1, k)
    {
      FillOneMoreIff(head, holes, f, full, k);
    }
    if EveryStepFills(head, holes, full) {
      forall f, k | Part(f, full) && k in full && k !in f ensures !Spurious(Absorb(head, holes, f).1, k) {
        assert StepFills(head, holes, f, k, full[k]);
      }
    }
  }

  /** It is enough that no text that can come to stand between two holes is a name. */
  lemma UnambiguousIsEnough(head: string, holes: seq<Hole>, full: Filling)
    requires Unambiguous(head, holes, full)
    ensures NeverSpurious(head, holes, full)
  {
    forall f, k | Part(f, full) && k in full && k !in f ensures !Spurious(Absorb(head, holes, f).1, k) {
      AbsorbedGaps(head, holes, f, full);
      NoneSpurious(Absorb(head, holes, f).1, k);
    }
  }

  lemma {:induction false} SequentialFills(head: string, holes: seq<Hole>, subs: seq<Sub>, full: Filling)
    requires PlainHoles(head, holes) && PlainFilling(full) && NeverSpurious(head, holes, full) && DistinctKeys(subs)
    requires forall s :: s in subs ==> s.key in full && full[s.key] == s.value
    ensures ApplyAll(TextOf(head, holes, map[]), subs) == TextOf(head, holes, FillingOf(subs))
    decreases subs
  {
    if subs != [] {
      var init, last := subs[..|subs| - 1], subs[|subs| - 1];
      SequentialFills(head, holes, init, full);
      FillingIs(init);
      assert last in subs;
      FillOneMoreIff(head, holes, FillingOf(init), full, last.key);
    }
  }

  /** Sequential replacement over the whole dict equals filling all holes at once, whatever the
      order of the dict. */
  lemma AnyOrderFillsAll(head: string, holes: seq<Hole>, subs: seq<Sub>)
    requires PlainHoles(head, holes) && PlainFilling(FillingOf(subs)) && NeverSpurious(head, holes, FillingOf(subs))
    requires DistinctKeys(subs)
    ensures ApplyAll(TextOf(head, holes, map[]), subs) == TextOf(head, holes, FillingOf(subs))
  {
    FillingIs(subs);
    SequentialFills(head, holes, subs, FillingOf(subs));
  }

  lemma OrderIrrelevant(head: string, holes: seq<Hole>, subs: seq<Sub>, other: seq<Sub>)
    requires DistinctKeys(subs) && DistinctKeys(other) && (forall s :: s in subs <==> s in other)
    requires PlainHoles(head, holes) && PlainFilling(FillingOf(subs)) && NeverSpurious(head, holes, FillingOf(subs))
    ensures ApplyAll(TextOf(head, holes, map[]), subs) == ApplyAll(TextOf(head, holes, map[]), other)
  {
    FillingIs(subs);
    FillingIs(other);
    assert FillingOf(subs) == FillingOf(other);
    AnyOrderFillsAll(head, holes, subs);
    AnyOrderFillsAll(head, holes, other);
  }

  /** The text is a fixed point of replacing the name, whatever it would be replaced by. */
  lemma FilledHasNo(head: string, holes: seq<Hole>, f: Filling, k: string, v: string)
    requires Unambiguous(head, holes, f) && k in f
    ensures Replace(TextOf(head, holes, f), Token(k), v) == TextOf(head, holes, f)
  {
    var (head', holes') := Absorb(head, holes, f);
    AbsorbPlain(head, holes, f);
    AbsorbedGaps(head, holes, f, f);
    AbsorbText(head, holes, f, map[]);
    assert f + map[] == f;
    NoneSpurious(holes', k);
    ReplaceFills(head', holes', k, v);
    NoSuchHole(head', holes', k, v);
  }

  lemma {:induction false} NoSuchHole(head: string, holes: seq<Hole>, k: string, v: string)
    requires forall h :: h in holes ==> h.key != k
    ensures TextOf(head, holes, map[k := v]) == TextOf(head, holes, map[])
    decreases holes
  {
    if holes != [] { NoSuchHole(holes[0].lit, holes[1..], k, v); }
  }

  predicate Contains(s: string, pat: string) {
    exists i :: 0 <= i <= |s| && StartsWith(s[i..], pat)
  }

  lemma {:induction false} ShrinkingShows(s: string, pat: string, i: nat)
    requires pat != "" && i <= |s|
    ensures |Replace(s, pat, "")| <= |s|
    ensures StartsWith(s[i..], pat) ==> |Replace(s, pat, "")| < |s|
    decreases |s|
  {
    if s != "" {
      if StartsWith(s, pat) {
        ShrinkingShows(s[|pat|..], pat, 0);
      } else if i == 0 {
        ShrinkingShows(s[1..], pat, 0);
        assert s[0..] == s;
      } else {
        ShrinkingShows(s[1..], pat, i - 1);
        assert s[1..][i - 1..] == s[i..];
      }
    }
  }

  /** A text that replacing by nothing leaves alone does not contain the pattern. */
  lemma FixedHasNone(s: string, pat: string)
    requires pat != "" && Replace(s, pat, "") == s
    ensures !Contains(s, pat)
  {
    forall i | 0 <= i <= |s| ensures !StartsWith(s[i..], pat) { ShrinkingShows(s, pat, i); }
  }

  /** The rendered text contains no known placeholder anywhere, and rendering it again changes
      nothing. */
  lemma RenderedIsFinal(head: string, holes: seq<Hole>, subs: seq<Sub>)
    requires DistinctKeys(subs) && Unambiguous(head, holes, FillingOf(subs))
    ensures var out := ApplyAll(TextOf(head, holes, map[]), subs);
      && ApplyAll(out, subs) == out
      && forall s :: s in subs ==> !Contains(out, Token(s.key))
  {
    var f := FillingOf(subs);
    var out := TextOf(head, holes, f);
    UnambiguousIsEnough(head, holes, f);
    AnyOrderFillsAll(head, holes, subs);
    FillingIs(subs);
    Reapply(head, holes, f, subs);
    forall s | s in subs ensures !Contains(out, Token(s.key)) {
      FilledHasNo(head, holes, f, s.key, "");
      FixedHasNone(out, Token(s.key));
    }
  }

  lemma {:induction false} Reapply(head: string, holes: seq<Hole>, f: Filling, subs: seq<Sub>)
    requires Unambiguous(head, holes, f) && forall s :: s in subs ==> s.key in f
    ensures ApplyAll(TextOf(head, holes, f), subs) == TextOf(head, holes, f)
    decreases subs
  {
    if subs != [] {
      assert subs[|subs| - 1] in subs;
      Reapply(head, holes, f, subs[..|subs| - 1]);
      FilledHasNo(head, holes, f, subs[|subs| - 1].key, subs[|subs| - 1].value);
    }
  }

  function ThreeHoles(a: string, b: string, c: string): seq<Hole> {
    [Hole(a, ""), Hole(b, ""), Hole(c, "")]
  }

  /** Plain values and literals are not enough: with neighbouring holes a, b, c and a value for b that
      is the name c, filling b before c destroys the placeholders around it, while the other order
      fills both. */
  lemma ValueCanBeAName(a: string, b: string, c: string, v: string)
    requires Plain(a) && Plain(b) && Plain(c) && Plain(v)
    requires a != "" && b != "" && c != "" && a != b && b != c && a != c
    ensures var text, good := TextOf("", ThreeHoles(a, b, c), map[]), TextOf("", ThreeHoles(a, b, c), map[b := c, c := v]);
      ApplyAll(text, [Sub(b, c), Sub(c, v)]) != good && ApplyAll(text, [Sub(c, v), Sub(b, c)]) == good
  {
    MiddleFirst(a, b, c, v);
    LastFirst(a, b, c, v);
  }

  lemma MiddleFirst(a: string, b: string, c: string, v: string)
    requires Plain(a) && Plain(b) && Plain(c) && Plain(v)
    requires a != "" && b != "" && c != "" && a != b && b != c && a != c
    ensures ApplyAll(TextOf("", ThreeHoles(a, b, c), map[]), [Sub(b, c), Sub(c, v)])
      != TextOf("", ThreeHoles(a, b, c), map[b := c, c := v])
  {
    var holes := ThreeHoles(a, b, c);
    TwoSubs(TextOf("", holes, map[]), Sub(b, c), Sub(c, v));
    NoneSpurious(holes, b);
    ReplaceFills("", holes, b, c);
    MiddleFilled(a, b, c, map[]);
    MiddleFilled(a, b, c, map[c := v]);
    assert map[b := c] + map[] == map[b := c] && map[b := c] + map[c := v] == map[b := c, c := v];
    SpuriousBreaks("", [Hole(a, c), Hole(c, "")], c, v);
  }

  lemma LastFirst(a: string, b: string, c: string, v: string)
    requires Plain(a) && Plain(b) && Plain(c) && Plain(v)
    requires a != "" && b != "" && c != "" && a != b && b != c && a != c
    ensures ApplyAll(TextOf("", ThreeHoles(a, b, c), map[]), [Sub(c, v), Sub(b, c)])
      == TextOf("", ThreeHoles(a, b, c), map[b := c, c := v])
  {
    var holes := ThreeHoles(a, b, c);
    TwoSubs(TextOf("", holes, map[]), Sub(c, v), Sub(b, c));
    NoneSpurious(holes, c);
    ReplaceFills("", holes, c, v);
    LastFilled(a, b, c, v, map[]);
    LastFilled(a, b, c, v, map[b := c]);
    assert map[c := v] + map[] == map[c := v] && map[c := v] + map[b := c] == map[b := c, c := v];
    NoneSpurious([Hole(a, ""), Hole(b, v)], b);
    ReplaceFills("", [Hole(a, ""), Hole(b, v)], b, c);
  }

  lemma MiddleFilled(a: string, b: string, c: string, g: Filling)
    requires a != b && b != c && b !in g
    ensures TextOf("", ThreeHoles(a, b, c), map[b := c] + g) == TextOf("", [Hole(a, c), Hole(c, "")], g)
  {
    var holes := ThreeHoles(a, b, c);
    var f := map[b := c];
    AbsorbText("", holes, f, g);
    assert holes[1..] == [Hole(b, ""), Hole(c, "")] && holes[1..][1..] == [Hole(c, "")] && [Hole(c, "")][1..] == [];
    assert "" + c + "" == c;
    var none: seq<Hole> := [];
    assert [Hole(c, "")] + none == [Hole(c, "")];
    assert Absorb("", none, f) == ("", none);
    assert Absorb(c, [Hole(c, "")], f) == (c, [Hole(c, "")]);
    assert Absorb("", holes[1..], f) == (c, [Hole(c, "")]);
    assert [Hole(a, c)] + [Hole(c, "")] == [Hole(a, c), Hole(c, "")];
    assert Absorb("", holes, f) == ("", [Hole(a, c), Hole(c, "")]);
  }

  lemma LastFilled(a: string, b: string, c: string, v: string, g: Filling)
    requires a != c && b != c && c !in g
    ensures TextOf("", ThreeHoles(a, b, c), map[c := v] + g) == TextOf("", [Hole(a, ""), Hole(b, v)], g)
  {
    var holes := ThreeHoles(a, b, c);
    var f := map[c := v];
    AbsorbText("", holes, f, g);
    assert holes[1..] == [Hole(b, ""), Hole(c, "")] && holes[1..][1..] == [Hole(c, "")] && [Hole(c, "")][1..] == [];
    assert "" + v + "" == v;
    var none: seq<Hole> := [];
    assert Absorb("", [Hole(c, "")], f) == (v, none);
    assert [Hole(b, v)] + none == [Hole(b, v)];
    assert Absorb("", holes[1..], f) == ("", [Hole(b, v)]);
    assert [Hole(a, "")] + [Hole(b, v)] == [Hole(a, ""), Hole(b, v)];
    assert Absorb("", holes, f) == ("", [Hole(a, ""), Hole(b, v)]);
  }

  lemma TwoSubs(text: string, s: Sub, t: Sub)
    ensures ApplyAll(text, [s, t]) == Replace(Replace(text, Token(s.key), s.value), Token(t.key), t.value)
  {
    assert [s, t][..1] == [s] && [s][..0] == [];
    assert ApplyAll(text, []) == text;
    assert ApplyAll(text, [s]) == Replace(text, Token(s.key), s.value);
  }
}
