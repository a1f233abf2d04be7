/** The two env-file printer/parser pairs: per-encoder files (app/services/encoder_env.py) and the
    tuning env store (app/services/env_store.py). A file is its text. */
module EnvFiles {
  import opened Decimal
  import opened Options

  // ---------- Python's strings ----------

  /** The characters `str.splitlines` breaks at. */
  predicate IsBreak(c: char) {
    c in {'\n', '\r', '\U{0B}', '\U{0C}', '\U{1C}', '\U{1D}', '\U{1E}', '\U{85}', '\U{2028}', '\U{2029}'}
  }

  /** The characters `str.strip` removes by default; every line break is one. */
  predicate IsSpace(c: char) {
    IsBreak(c) || c in {' ', '\t', '\U{1F}', '\U{A0}', '\U{1680}', '\U{202F}', '\U{205F}', '\U{3000}'}
    || '\U{2000}' <= c <= '\U{200A}'
  }

  datatype Class = Space | DoubleQuote | SingleQuote

  predicate In(c: char, cls: Class) {
    match cls
    case Space => IsSpace(c)
    case DoubleQuote => c == '"'
    case SingleQuote => c == '\''
  }

  function LStrip(s: string, cls: Class): string {
    if s != "" && In(s[0], cls) then LStrip(s[1..], cls) else s
  }

  function RStrip(s: string, cls: Class): string {
    if s != "" && In(s[|s| - 1], cls) then RStrip(s[..|s| - 1], cls) else s
  }

  function Strip(s: string, cls: Class): string {
    RStrip(LStrip(s, cls), cls)
  }

  /** The first index at which the text breaks, or its length. */
  function LineEnd(s: string): (n: nat)
    ensures n <= |s|
  {
    if s == "" || IsBreak(s[0]) then 0 else 1 + LineEnd(s[1..])
  }

  /** `str.splitlines`; carriage return and line feed together are one break. */
  function SplitLines(s: string): seq<string>
    decreases |s|
  {
    if s == "" then []
    else
      var n := LineEnd(s);
      if n == |s| then [s]
      else if s[n] == '\r' && n + 1 < |s| && s[n + 1] == '\n' then [s[..n]] + SplitLines(s[n + 2..])
      else [s[..n]] + SplitLines(s[n + 1..])
  }

  /** The index of the first '=' of a line that has one. */
  function FirstEq(s: string): (i: nat)
    requires '=' in s
    ensures i < |s| && s[i] == '=' && '=' !in s[..i]
  {
    if s[0] == '=' then 0 else 1 + FirstEq(s[1..])
  }

  // ---------- the two readers ----------

  datatype Style = EncoderEnv | EnvStore

  /** `encoder_env.read_env_file`: one pair of matching quotes goes. */
  function Unquoted(v: string): string {
    if v != "" && ((v[0] == '"' && v[|v| - 1] == '"') || (v[0] == '\'' && v[|v| - 1] == '\'')) then
      if |v| < 2 then "" else v[1..|v| - 1]
    else v
  }

  /** `env_store.read_env`: all outer quotes go, double ones first. */
  function Stripped(v: string): string {
    Strip(Strip(v, DoubleQuote), SingleQuote)
  }

  function ValueOf(v: string, style: Style): string {
    var w := Strip(v, Space);
    if style.EncoderEnv? then Unquoted(w) else Stripped(w)
  }

  function ParseLine(raw: string, style: Style): Option<(string, string)> {
    var line := Strip(raw, Space);
    if line == "" || line[0] == '#' || '=' !in line then None
    else
      var i := FirstEq(line);
      Some((Strip(line[..i], Space), ValueOf(line[i + 1..], style)))
  }

  function ReadLine(m: map<string, string>, raw: string, style: Style): map<string, string> {
    match ParseLine(raw, style)
    case None => m
    case Some((k, v)) => m[k := v]
  }

  /** The pairs of the lines, added to those read so far; a repeated key keeps its last value. */
  function ReadLines(m: map<string, string>, lines: seq<string>, style: Style): map<string, string>
    decreases lines
  {
    if lines == [] then m else ReadLines(ReadLine(m, lines[0], style), lines[1..], style)
  }

  function ReadText(text: string, style: Style): map<string, string> {
    ReadLines(map[], SplitLines(text), style)
  }

  /** One line of either reader's loop. */
  method AddLine(out: map<string, string>, raw: string, style: Style) returns (more: map<string, string>)
    ensures more == ReadLine(out, raw, style)
  {
    var line := Strip(raw, Space);
    if line == "" || line[0] == '#' || '=' !in line {
      return out;
    }
    var i := FirstEq(line);
    more := out[Strip(line[..i], Space) := ValueOf(line[i + 1..], style)];
  }

  /** A missing file reads as empty. */
  method ReadEnvFile(text: Option<string>, style: Style) returns (out: map<string, string>)
    ensures out == if text.None? then map[] else ReadText(text.value, style)
  {
    out := map[];
    if text.None? {
      return;
    }
    var lines := SplitLines(text.value);
    for n := 0 to |lines|
      invariant ReadLines(out, lines[n..], style) == ReadLines(map[], lines, style)
    {
      assert lines[n..][1..] == lines[n + 1..];
      out := AddLine(out, lines[n], style);
    }
  }

  // ---------- the two writers ----------

  type Entries = seq<(string, string)>

  function PlainLine(e: (string, string)): string {
    e.0 + "=" + e.1
  }

  function QuotedLine(e: (string, string)): string {
    e.0 + "=\"" + e.1 + "\""
  }

  function LineOf(e: (string, string), style: Style): string {
    if style.EncoderEnv? then QuotedLine(e) else PlainLine(e)
  }

  function Printed(es: Entries, style: Style): string {
    if es == [] then "" else LineOf(es[0], style) + "\n" + Printed(es[1..], style)
  }

  method WriteEnvAtomic(data: Entries) returns (text: string)
    ensures text == Printed(data, EnvStore)
  {
    text := "";
    for n := 0 to |data|
      invariant text + Printed(data[n..], EnvStore) == Printed(data, EnvStore)
    {
      assert data[n..][1..] == data[n + 1..];
      ghost var rest := Printed(data[n + 1..], EnvStore);
      assert text + (PlainLine(data[n]) + "\n" + rest) == text + PlainLine(data[n]) + "\n" + rest;
      text := text + PlainLine(data[n]) + "\n";
    }
  }

  datatype EncoderSpec = EncoderSpec(
    device: Option<string>, pixFmt: Option<string>, width: nat, height: nat, fps: nat, bitrate: nat, gop: nat,
    preset: string, tune: string, rotation: nat)

  function OrEmpty(o: Option<string>): string {
    if o.Some? then o.value else ""
  }

  function TuningEntries(e: EncoderSpec): Entries {
    [("DEVICE", OrEmpty(e.device)), ("PIX_FMT", OrEmpty(e.pixFmt)), ("WIDTH", Dec(e.width)), ("HEIGHT", Dec(e.height)),
     ("FPS", Dec(e.fps)), ("BITRATE_KBPS", Dec(e.bitrate)), ("GOP", Dec(e.gop)), ("PRESET", e.preset),
     ("TUNE", e.tune), ("ROTATION", Dec(e.rotation)), ("SNAPSHOT_PATH", ""), ("SNAPSHOT_FPS", "1")]
  }

  function ContractEntries(port: nat): Entries {
    [("PORT", Dec(port))]
  }

  const TUNING_NOTE := "# Auto-written by admin_dashboard at "
  const CONTRACT_NOTE := "# Auto-written by admin_dashboard"

  function TuningText(family: string, instance: string, e: EncoderSpec): string {
    TUNING_NOTE + family + "-" + instance + "\n" + Printed(TuningEntries(e), EncoderEnv)
  }

  function ContractText(port: nat): string {
    CONTRACT_NOTE + "\n" + Printed(ContractEntries(port), EncoderEnv)
  }

  predicate IsAlnum(c: char) {
    'a' <= c <= 'z' || 'A' <= c <= 'Z' || '0' <= c <= '9'
  }

  /** INSTANCE_RE under `re.match`: its `$` also accepts one final line feed. */
  predicate ValidInstance(s: string) {
    var body := if s != "" && s[|s| - 1] == '\n' then s[..|s| - 1] else s;
    1 <= |body| <= 32 && IsAlnum(body[0]) && forall c :: c in body ==> IsAlnum(c) || c == '_' || c == '-'
  }

  class EnvDir {
    var files: map<string, string>

    constructor ()
      ensures files == map[]
    {
      files := map[];
    }

    /** Temporary file, then rename. */
    method Put(path: string, text: string)
      modifies this
      ensures files == (old(files) - {path + ".tmp"})[path := text]
    {
      var tmp := path + ".tmp";
      files := files[tmp := text];
      files := (files - {tmp})[path := text];
    }

    /** False stands for InvalidEncoderInstanceName. */
    method WriteEnvFiles(family: string, instance: string, e: EncoderSpec, port: nat) returns (ok: bool)
      modifies this
      ensures ok <==> ValidInstance(instance)
      ensures !ok ==> files == old(files)
      ensures ok ==>
        var tuning, contract := family + "-" + instance + ".tuning.env", family + "-" + instance + ".contract.env";
        files == (old(files) - {tuning + ".tmp", contract + ".tmp"})[
          tuning := TuningText(family, instance, e)][contract := ContractText(port)]
    {
      if !ValidInstance(instance) {
        return false;
      }
      var tuning, contract := family + "-" + instance + ".tuning.env", family + "-" + instance + ".contract.env";
      Put(tuning, TuningText(family, instance, e));
      Put(contract, ContractText(port));
      assert tuning[|tuning| - 1] == 'v' && (contract + ".tmp")[|contract| + 3] == 'p';
      ok := true;
    }
  }
}

/** What survives a write and a read. */
module EnvLaws {
  import opened Decimal
  import opened Options
  import opened EnvFiles

  // ---------- characters ----------

  /** The characters by code point: Python's line boundaries, and its white space. */
  lemma CharactersAre(c: char)
    ensures IsBreak(c) <==> c as int in {10, 11, 12, 13, 28, 29, 30, 0x85, 0x2028, 0x2029}
    ensures IsSpace(c) <==>
      || 9 <= c as int <= 13 || 28 <= c as int <= 32 || 0x2000 <= c as int <= 0x200A
      || c as int in {0x85, 0xA0, 0x1680, 0x2028, 0x2029, 0x202F, 0x205F, 0x3000}
  {
  }

  // ---------- stripping ----------

  predicate OuterFree(s: string, cls: Class) {
    s == "" || (!In(s[0], cls) && !In(s[|s| - 1], cls))
  }

  lemma {:induction false} RStripIs(s: string, cls: Class)
    ensures |RStrip(s, cls)| <= |s| && RStrip(s, cls) == s[..|RStrip(s, cls)|]
    ensures RStrip(s, cls) == "" || !In(RStrip(s, cls)[|RStrip(s, cls)| - 1], cls)
    ensures RStrip(s, cls) == s <==> s == "" || !In(s[|s| - 1], cls)
    decreases s
  {
    if s != "" && In(s[|s| - 1], cls) { RStripIs(s[..|s| - 1], cls); }
  }

  lemma {:induction false} LStripIs(s: string, cls: Class)
    ensures |LStrip(s, cls)| <= |s| && LStrip(s, cls) == s[|s| - |LStrip(s, cls)|..]
    ensures LStrip(s, cls) == "" || !In(LStrip(s, cls)[0], cls)
    ensures LStrip(s, cls) == s <==> s == "" || !In(s[0], cls)
    decreases s
  {
    if s != "" && In(s[0], cls) { LStripIs(s[1..], cls); }
  }

  /** Stripping leaves exactly the strings with nothing to strip, and yields such a slice. */
  lemma StripIs(s: string, cls: Class)
    ensures Strip(s, cls) == s <==> OuterFree(s, cls)
    ensures OuterFree(Strip(s, cls), cls)
    ensures forall c :: c in Strip(s, cls) ==> c in s
    ensures |Strip(s, cls)| <= |s|
  {
    var l := LStrip(s, cls);
    LStripIs(s, cls);
    RStripIs(l, cls);
    var r := RStrip(l, cls);
    assert r != "" ==> r[0] == l[0];
    if r == s { assert |l| == |s|; }
  }

  /** A head whose first character stays shields everything but the tail. */
  lemma {:induction false} RStripTail(a: string, b: string, cls: Class)
    requires a != "" && !In(a[|a| - 1], cls)
    ensures RStrip(a + b, cls) == a + RStrip(b, cls)
    decreases b
  {
    if b == "" {
      assert a + b == a;
    } else if In(b[|b| - 1], cls) {
      assert (a + b)[..|a + b| - 1] == a + b[..|b| - 1];
      RStripTail(a, b[..|b| - 1], cls);
    }
  }

  lemma {:induction false} StripOfRStrip(s: string, cls: Class)
    ensures Strip(RStrip(s, cls), cls) == Strip(s, cls)
    decreases s
  {
    if s != "" && In(s[|s| - 1], cls) {
      StripOfRStrip(s[..|s| - 1], cls);
      StripDropsLast(s, cls);
    }
  }

  lemma {:induction false} StripDropsLast(s: string, cls: Class)
    requires s != "" && In(s[|s| - 1], cls)
    ensures Strip(s, cls) == Strip(s[..|s| - 1], cls)
    decreases s
  {
    var t := s[..|s| - 1];
    if In(s[0], cls) {
      if |s| > 1 {
        assert s[1..][..|s[1..]| - 1] == t[1..];
        StripDropsLast(s[1..], cls);
      }
    }
  }

  // ---------- lines ----------

  predicate BreakFree(s: string) {
    forall c :: c in s ==> !IsBreak(c)
  }

  lemma {:induction false} LineEndIs(s: string)
    ensures BreakFree(s[..LineEnd(s)]) && (LineEnd(s) < |s| ==> IsBreak(s[LineEnd(s)]))
  {
    if s != "" && !IsBreak(s[0]) {
      LineEndIs(s[1..]);
      assert s[..LineEnd(s)] == [s[0]] + s[1..][..LineEnd(s[1..])];
    }
  }

  lemma {:induction false} LineEndAt(a: string, rest: string)
    requires BreakFree(a)
    ensures LineEnd(a + "\n" + rest) == |a|
    decreases a
  {
    if a != "" {
      LineEndAt(a[1..], rest);
      assert (a + "\n" + rest)[1..] == a[1..] + "\n" + rest;
      assert a[0] in a;
    }
  }

  /** A text that starts with a terminated line. */
  lemma FirstLine(a: string, rest: string)
    requires BreakFree(a)
    ensures SplitLines(a + "\n" + rest) == [a] + SplitLines(rest)
  {
    var s := a + "\n" + rest;
    LineEndAt(a, rest);
    assert s[..|a|] == a && s[|a|] == '\n' && s[|a| + 1..] == rest;
  }

  lemma {:induction false} LinesBreakFree(s: string)
    ensures forall l :: l in SplitLines(s) ==> BreakFree(l)
    decreases |s|
  {
    if s != "" {
      var n := LineEnd(s);
      LineEndIs(s);
      if n < |s| {
        if s[n] == '\r' && n + 1 < |s| && s[n + 1] == '\n' {
          LinesBreakFree(s[n + 2..]);
        } else {
          LinesBreakFree(s[n + 1..]);
        }
      } else {
        assert s[..n] == s;
      }
    }
  }

  // ---------- one line ----------

  /** A key that can be read back: no '=' or line break in it, no outer space, no comment mark. */
  predicate CleanKey(k: string) {
    BreakFree(k) && '=' !in k && OuterFree(k, Space) && (k == "" || k[0] != '#')
  }

  /** A value the store can read back: no line break in it, no outer space and no outer quotes. */
  predicate CleanValue(v: string) {
    BreakFree(v) && OuterFree(v, Space) && OuterFree(v, DoubleQuote) && OuterFree(v, SingleQuote)
  }

  lemma FirstEqAt(k: string, v: string)
    requires '=' !in k
    ensures '=' in k + "=" + v && FirstEq(k + "=" + v) == |k|
  {
    var s := k + "=" + v;
    assert s[|k|] == '=';
  }

  lemma StrippedLine(k: string, v: string)
    requires CleanKey(k)
    ensures Strip(k + "=" + v, Space) == k + "=" + RStrip(v, Space)
  {
    var raw, head := k + "=" + v, k + "=";
    assert raw[0] == if k == "" then '=' else k[0];
    LStripIs(raw, Space);
    assert LStrip(raw, Space) == head + v;
    RStripTail(head, v, Space);
  }

  lemma KeyLine(k: string, w: string)
    requires CleanKey(k)
    ensures var line := k + "=" + w;
      line != "" && line[0] != '#' && '=' in line && FirstEq(line) == |k| && line[..|k|] == k && line[|k| + 1..] == w
  {
    FirstEqAt(k, w);
    assert (k + "=" + w)[0] == if k == "" then '=' else k[0];
  }

  /** What a clean key's line parses to: the key, and the value as its style reads it. */
  lemma ParsesToKey(k: string, v: string, style: Style)
    requires CleanKey(k)
    ensures ParseLine(k + "=" + v, style) == Some((k, ValueOf(v, style)))
  {
    StrippedLine(k, v);
    KeyLine(k, RStrip(v, Space));
    StripIs(k, Space);
    StripOfRStrip(v, Space);
  }

  lemma QuotedIsExact(v: string)
    ensures ValueOf("\"" + v + "\"", EncoderEnv) == v
  {
    var q := "\"" + v + "\"";
    StripIs(q, Space);
    assert q[1..|q| - 1] == v;
  }

  /** The encoder files' reader takes a value on one line as it is, but for one pair of equal quotes, of either
      kind, around it; a quote alone is a pair. */
  lemma PairGoes(v: string, q: char)
    requires q == '"' || q == '\''
    ensures ValueOf([q] + v + [q], EncoderEnv) == v && ValueOf([q], EncoderEnv) == ""
    ensures OuterFree(v, Space) ==>
      (ValueOf(v, EncoderEnv) == v <==> v == "" || v[0] != v[|v| - 1] || (v[0] != '"' && v[0] != '\''))
  {
    var w := [q] + v + [q];
    StripIs(w, Space);
    StripIs([q], Space);
    StripIs(v, Space);
    assert w[1..|w| - 1] == v;
  }

  /** The store reads a value back unchanged exactly when it is clean (given that it fits on a line). */
  lemma StoredValueIff(v: string)
    ensures ValueOf(v, EnvStore) == v <==> OuterFree(v, Space) && OuterFree(v, DoubleQuote) && OuterFree(v, SingleQuote)
  {
    var a := Strip(v, Space);
    var b := Strip(a, DoubleQuote);
    StripIs(v, Space);
    StripIs(a, DoubleQuote);
    StripIs(b, SingleQuote);
    SameSize(v, a, Space);
    SameSize(a, b, DoubleQuote);
    SameSize(b, Strip(b, SingleQuote), SingleQuote);
  }

  lemma SameSize(s: string, t: string, cls: Class)
    requires t == Strip(s, cls)
    ensures |s| == |t| ==> s == t
  {
    LStripIs(s, cls);
    RStripIs(LStrip(s, cls), cls);
  }

  // ---------- whole files ----------

  function Into(m: map<string, string>, es: Entries): map<string, string>
    decreases es
  {
    if es == [] then m else Into(m[es[0].0 := es[0].1], es[1..])
  }

  function MapOf(es: Entries): map<string, string> {
    Into(map[], es)
  }

  function Written(v: string, written: Style): string {
    if written.EncoderEnv? then "\"" + v + "\"" else v
  }

  /** The entries with each value as the reader sees it. */
  function Reread(es: Entries, style: Style, written: Style): Entries {
    if es == [] then [] else [(es[0].0, ValueOf(Written(es[0].1, written), style))] + Reread(es[1..], style, written)
  }

  predicate Printable(es: Entries) {
    forall e :: e in es ==> CleanKey(e.0) && BreakFree(e.1)
  }

  lemma ReadsLine(m: map<string, string>, e: (string, string), style: Style, written: Style)
    requires CleanKey(e.0)
    ensures ReadLine(m, LineOf(e, written), style) == m[e.0 := ValueOf(Written(e.1, written), style)]
  {
    assert LineOf(e, written) == e.0 + "=" + Written(e.1, written);
    ParsesToKey(e.0, Written(e.1, written), style);
  }

  lemma LineFits(e: (string, string), written: Style)
    requires BreakFree(e.0) && BreakFree(e.1)
    ensures BreakFree(LineOf(e, written))
  {
  }

  /** What is read from printed entries: each key with its value as the reader sees it. */
  lemma {:induction false} ReadsEntries(m: map<string, string>, es: Entries, style: Style, written: Style)
    requires Printable(es)
    ensures ReadLines(m, SplitLines(Printed(es, written)), style) == Into(m, Reread(es, style, written))
    decreases es
  {
    if es != [] {
      var e, rest := es[0], Printed(es[1..], written);
      LineFits(e, written);
      FirstLine(LineOf(e, written), rest);
      ReadsLine(m, e, style, written);
      ReadsFirst(m, LineOf(e, written), SplitLines(rest), style);
      ReadsEntries(m[e.0 := ValueOf(Written(e.1, written), style)], es[1..], style, written);
      IntoFirst(m, (e.0, ValueOf(Written(e.1, written), style)), Reread(es[1..], style, written));
    }
  }

  lemma ReadsFirst(m: map<string, string>, line: string, rest: seq<string>, style: Style)
    ensures ReadLines(m, [line] + rest, style) == ReadLines(ReadLine(m, line, style), rest, style)
  {
    assert ([line] + rest)[1..] == rest;
  }

  lemma IntoFirst(m: map<string, string>, e: (string, string), rest: Entries)
    ensures Into(m, [e] + rest) == Into(m[e.0 := e.1], rest)
  {
    assert ([e] + rest)[1..] == rest;
  }

  /** Whatever the text, what is read has clean keys and break-free values. */
  lemma ParsedIsClean(line: string, style: Style)
    requires BreakFree(line) && ParseLine(line, style).Some?
    ensures var (k, v) := ParseLine(line, style).value; CleanKey(k) && BreakFree(v)
  {
    var l := Strip(line, Space);
    StripIs(line, Space);
    var i := FirstEq(l);
    var rawKey, rawValue := l[..i], l[i + 1..];
    StripIs(rawKey, Space);
    KeepsFirst(rawKey);
    var w := Strip(rawValue, Space);
    StripIs(rawValue, Space);
    StripIs(w, DoubleQuote);
    StripIs(Strip(w, DoubleQuote), SingleQuote);
    assert forall c :: c in ValueOf(rawValue, style) ==> c in w;
    assert i > 0 ==> l[0] == rawKey[0];
  }

  lemma KeepsFirst(s: string)
    requires s != "" ==> !IsSpace(s[0])
    ensures Strip(s, Space) != "" ==> Strip(s, Space)[0] == s[0]
  {
    LStripIs(s, Space);
    RStripIs(s, Space);
  }

  predicate CleanMap(m: map<string, string>) {
    forall k :: k in m ==> CleanKey(k) && BreakFree(m[k])
  }

  lemma {:induction false} ReadIsClean(m: map<string, string>, lines: seq<string>, style: Style)
    requires CleanMap(m) && forall l :: l in lines ==> BreakFree(l)
    ensures CleanMap(ReadLines(m, lines, style))
    decreases lines
  {
    if lines != [] {
      if ParseLine(lines[0], style).Some? { ParsedIsClean(lines[0], style); }
      ReadIsClean(ReadLine(m, lines[0], style), lines[1..], style);
    }
  }

  predicate DistinctKeys(es: Entries) {
    forall i, j :: 0 <= i < j < |es| ==> es[i].0 != es[j].0
  }

  lemma {:induction false} IntoOthers(m: map<string, string>, es: Entries, k: string)
    requires forall e :: e in es ==> e.0 != k
    ensures k in Into(m, es) <==> k in m
    ensures k in m ==> Into(m, es)[k] == m[k]
    decreases es
  {
    if es != [] {
      assert es[0] in es;
      IntoOthers(m[es[0].0 := es[0].1], es[1..], k);
    }
  }

  lemma {:induction false} IntoIs(m: map<string, string>, es: Entries, i: nat)
    requires DistinctKeys(es) && i < |es|
    ensures es[i].0 in Into(m, es) && Into(m, es)[es[i].0] == es[i].1
    decreases es
  {
    if i == 0 {
      IntoOthers(m[es[0].0 := es[0].1], es[1..], es[0].0);
    } else {
      IntoIs(m[es[0].0 := es[0].1], es[1..], i - 1);
    }
  }

  /** The text that a writer prints, read back by a reader. */
  function WriteRead(es: Entries, style: Style, written: Style): map<string, string> {
    ReadText(Printed(es, written), style)
  }

  /** Whatever is read has clean keys and fits on its lines, so only such entries can survive. */
  lemma SurvivorsArePrintable(es: Entries, style: Style, written: Style)
    requires DistinctKeys(es) && WriteRead(es, style, written) == MapOf(es)
    ensures Printable(es)
  {
    LinesBreakFree(Printed(es, written));
    ReadIsClean(map[], SplitLines(Printed(es, written)), style);
    forall e | e in es ensures CleanKey(e.0) && BreakFree(e.1) {
      var i :| 0 <= i < |es| && es[i] == e;
      IntoIs(map[], es, i);
    }
  }

  lemma {:induction false} RereadAt(es: Entries, style: Style, written: Style, i: nat)
    requires i < |es|
    ensures |Reread(es, style, written)| == |es|
    ensures Reread(es, style, written)[i] == (es[i].0, ValueOf(Written(es[i].1, written), style))
    decreases es
  {
    if i > 0 {
      RereadAt(es[1..], style, written, i - 1);
    } else if |es| > 1 {
      RereadAt(es[1..], style, written, 0);
    }
  }

  predicate Kept(v: string, style: Style, written: Style) {
    ValueOf(Written(v, written), style) == v
  }

  lemma {:induction false} KeptEntries(es: Entries, style: Style, written: Style)
    requires forall e :: e in es ==> Kept(e.1, style, written)
    ensures Reread(es, style, written) == es
    decreases es
  {
    if es != [] {
      assert es[0] in es;
      KeptEntries(es[1..], style, written);
    }
  }

  /** Exactly which data any writer and reader pair gives back. */
  lemma RoundTripIff(es: Entries, style: Style, written: Style)
    requires DistinctKeys(es)
    ensures WriteRead(es, style, written) == MapOf(es) <==>
      Printable(es) && forall e :: e in es ==> Kept(e.1, style, written)
  {
    if WriteRead(es, style, written) == MapOf(es) {
      SurvivorsArePrintable(es, style, written);
      forall e | e in es ensures Kept(e.1, style, written) {
        var i :| 0 <= i < |es| && es[i] == e;
        SurvivorKept(es, style, written, i);
      }
    }
    if Printable(es) && forall e :: e in es ==> Kept(e.1, style, written) {
      ReadsEntries(map[], es, style, written);
      KeptEntries(es, style, written);
    }
  }

  lemma SurvivorKept(es: Entries, style: Style, written: Style, i: nat)
    requires DistinctKeys(es) && Printable(es) && i < |es| && WriteRead(es, style, written) == MapOf(es)
    ensures Kept(es[i].1, style, written)
  {
    ReadsEntries(map[], es, style, written);
    var r := Reread(es, style, written);
    RereadKeys(es, style, written);
    IntoIs(map[], es, i);
    IntoIs(map[], r, i);
    RereadAt(es, style, written, i);
  }

  lemma RereadKeys(es: Entries, style: Style, written: Style)
    requires DistinctKeys(es)
    ensures |Reread(es, style, written)| == |es| && DistinctKeys(Reread(es, style, written))
  {
    forall i | 0 <= i < |es| ensures |Reread(es, style, written)| == |es| && Reread(es, style, written)[i].0 == es[i].0 {
      RereadAt(es, style, written, i);
    }
  }

  /** The store's round trip: reading what was written gives the data back, key for key, if and only
      if every key and every value is clean. */
  lemma StoreRoundTripIff(data: Entries)
    requires DistinctKeys(data)
    ensures WriteRead(data, EnvStore, EnvStore) == MapOf(data) <==> forall e :: e in data ==> CleanKey(e.0) && CleanValue(e.1)
  {
    RoundTripIff(data, EnvStore, EnvStore);
    forall e | e in data ensures Kept(e.1, EnvStore, EnvStore) && BreakFree(e.1) <==> CleanValue(e.1) {
      StoredValueIff(e.1);
    }
  }

  /** The encoder files' round trip: quotes and outer spaces survive, so it is exact if and only if the
      keys are clean and no value breaks its line. */
  lemma QuotedRoundTripIff(data: Entries)
    requires DistinctKeys(data)
    ensures WriteRead(data, EncoderEnv, EncoderEnv) == MapOf(data) <==> forall e :: e in data ==> CleanKey(e.0) && BreakFree(e.1)
  {
    RoundTripIff(data, EncoderEnv, EncoderEnv);
    forall e | e in data ensures Kept(e.1, EncoderEnv, EncoderEnv) { QuotedIsExact(e.1); }
  }

  // ---------- the files write_env_files leaves ----------

  lemma DecFits(n: nat)
    ensures BreakFree(Dec(n))
  {
    forall c | c in Dec(n) ensures !IsBreak(c) { assert IsDigit(c); }
  }

  /** A '#' line, and an empty one, add nothing. */
  lemma SkipsComment(m: map<string, string>, line: string, rest: string, style: Style)
    requires BreakFree(line) && (line == "" || line[0] == '#')
    ensures ReadLines(m, SplitLines(line + "\n" + rest), style) == ReadLines(m, SplitLines(rest), style)
  {
    FirstLine(line, rest);
    ReadsFirst(m, line, SplitLines(rest), style);
    KeepsFirst(line);
    if line == "" { StripIs(line, Space); }
  }

  lemma InstanceFits(instance: string)
    requires ValidInstance(instance)
    ensures BreakFree(instance) || (instance != "" && instance[|instance| - 1] == '\n' && BreakFree(instance[..|instance| - 1]))
  {
    var body := if instance != "" && instance[|instance| - 1] == '\n' then instance[..|instance| - 1] else instance;
    forall c | c in body ensures !IsBreak(c) {
      assert IsAlnum(c) || c == '_' || c == '-';
    }
  }

  /** The header adds nothing, even when the instance name ends in a line feed. */
  lemma SkipsHeader(head: string, instance: string, rest: string, style: Style)
    requires head != "" && head[0] == '#' && BreakFree(head) && ValidInstance(instance)
    ensures ReadText(head + instance + "\n" + rest, style) == ReadText(rest, style)
  {
    InstanceFits(instance);
    if BreakFree(instance) {
      SkipsComment(map[], head + instance, rest, style);
    } else {
      var body := instance[..|instance| - 1];
      assert head + instance + "\n" + rest == (head + body) + "\n" + ("" + "\n" + rest);
      SkipsComment(map[], head + body, "" + "\n" + rest, style);
      SkipsComment(map[], "", rest, style);
    }
  }

  /** A name without line breaks is valid exactly when it is 1 to 32 letters, digits, underscores and hyphens
      and starts with a letter or digit. */
  lemma ValidNameIs(name: string)
    requires BreakFree(name)
    ensures ValidInstance(name) <==>
      && 1 <= |name| <= 32 && name[0] != '_' && name[0] != '-'
      && forall c :: c in name ==> 'a' <= c <= 'z' || 'A' <= c <= 'Z' || '0' <= c <= '9' || c == '_' || c == '-'
  {
    if name != "" {
      assert !IsBreak(name[|name| - 1]) && IsBreak('\n');
      assert name[0] in name;
      assert ValidInstance(name) <==>
        |name| <= 32 && IsAlnum(name[0]) && forall c :: c in name ==> IsAlnum(c) || c == '_' || c == '-';
    }
  }

  /** The pattern's `$`: a valid name is still valid with one line feed behind it, and no name with a line
      break anywhere else is. */
  lemma LineFeedIsValidIff(name: string)
    requires BreakFree(name)
    ensures ValidInstance(name + "\n") <==> ValidInstance(name)
    ensures ValidInstance("a\n") && !ValidInstance(name + "\n" + "\n")
  {
    assert (name + "\n")[..|name|] == name;
    if name != "" { assert name[|name| - 1] in name; }
    assert "a\n"[..1] == "a";
    TwoLineFeeds(name);
  }

  lemma TwoLineFeeds(name: string)
    ensures !ValidInstance(name + "\n" + "\n")
  {
    var body, twice := name + "\n", name + "\n" + "\n";
    assert twice[..|twice| - 1] == body && body[|name|] == '\n';
    assert body[|name|] in body && !IsAlnum('\n');
  }

  predicate FitsOnLines(e: EncoderSpec) {
    BreakFree(OrEmpty(e.device)) && BreakFree(OrEmpty(e.pixFmt)) && BreakFree(e.preset) && BreakFree(e.tune)
  }

  predicate IsWord(k: string) {
    forall i :: 0 <= i < |k| ==> 'A' <= k[i] <= 'Z' || k[i] == '_'
  }

  lemma WordIsClean(k: string)
    requires IsWord(k)
    ensures CleanKey(k)
  {
  }

  lemma KeysAreWords()
    ensures IsWord("DEVICE") && IsWord("PIX_FMT") && IsWord("WIDTH") && IsWord("HEIGHT") && IsWord("FPS")
    ensures IsWord("BITRATE_KBPS") && IsWord("GOP") && IsWord("PRESET") && IsWord("TUNE") && IsWord("ROTATION")
    ensures IsWord("SNAPSHOT_PATH") && IsWord("SNAPSHOT_FPS")
  {
  }

  lemma TuningKeysAreWords(e: EncoderSpec)
    ensures forall i :: 0 <= i < 12 ==> IsWord(TuningEntries(e)[i].0)
  {
    KeysAreWords();
  }

  lemma TuningValueFits(e: EncoderSpec, i: nat)
    requires i < 12 && FitsOnLines(e)
    ensures BreakFree(TuningEntries(e)[i].1)
  {
    DecFits(e.width); DecFits(e.height); DecFits(e.fps); DecFits(e.bitrate); DecFits(e.gop); DecFits(e.rotation);
    assert BreakFree("") && BreakFree("1");
  }

  predicate ValuesFit(es: Entries) {
    forall i :: 0 <= i < |es| ==> BreakFree(es[i].1)
  }

  lemma PrintableValuesFit(es: Entries)
    requires Printable(es)
    ensures ValuesFit(es)
  {
  }

  lemma FitsIfValuesFit(e: EncoderSpec)
    requires ValuesFit(TuningEntries(e))
    ensures FitsOnLines(e)
  {
    var es := TuningEntries(e);
    assert es[0].1 == OrEmpty(e.device) && es[1].1 == OrEmpty(e.pixFmt) && es[7].1 == e.preset && es[8].1 == e.tune;
  }

  lemma PrintableByIndex(es: Entries)
    requires forall i :: 0 <= i < |es| ==> CleanKey(es[i].0) && BreakFree(es[i].1)
    ensures Printable(es)
  {
  }

  lemma PrintableIfFits(e: EncoderSpec)
    requires FitsOnLines(e)
    ensures Printable(TuningEntries(e))
  {
    TuningKeysAreWords(e);
    forall i | 0 <= i < 12 ensures CleanKey(TuningEntries(e)[i].0) && BreakFree(TuningEntries(e)[i].1) {
      WordIsClean(TuningEntries(e)[i].0);
      TuningValueFits(e, i);
    }
    PrintableByIndex(TuningEntries(e));
  }

  lemma TuningPrintableIff(e: EncoderSpec)
    ensures Printable(TuningEntries(e)) <==> FitsOnLines(e)
  {
    if Printable(TuningEntries(e)) {
      PrintableValuesFit(TuningEntries(e));
      FitsIfValuesFit(e);
    }
    if FitsOnLines(e) { PrintableIfFits(e); }
  }

  lemma TuningKeysDiffer(e: EncoderSpec)
    ensures DistinctKeys(TuningEntries(e))
  {
    assert forall i, j :: 0 <= i < j < 12 ==> TuningEntries(e)[i].0 != TuningEntries(e)[j].0;
  }

  /** A commented header and printed entries. */
  lemma HeadedRoundTripIff(head: string, instance: string, es: Entries)
    requires head != "" && head[0] == '#' && BreakFree(head) && ValidInstance(instance) && DistinctKeys(es)
    ensures ReadText(head + instance + "\n" + Printed(es, EncoderEnv), EncoderEnv) == MapOf(es) <==> Printable(es)
  {
    SkipsHeader(head, instance, Printed(es, EncoderEnv), EncoderEnv);
    QuotedRoundTripIff(es);
  }

  predicate IsPlain(s: string) {
    forall i :: 0 <= i < |s| ==> ' ' <= s[i] <= '~'
  }

  lemma PlainFits(s: string)
    requires IsPlain(s)
    ensures BreakFree(s)
  {
  }

  lemma TuningHead(family: string)
    requires BreakFree(family)
    ensures var head := TUNING_NOTE + family + "-"; head != "" && head[0] == '#' && BreakFree(head)
  {
    PlainFits(TUNING_NOTE);
    PlainFits("-");
    assert (TUNING_NOTE + family)[0] == TUNING_NOTE[0];
  }

  lemma ContractHead()
    ensures CONTRACT_NOTE != "" && CONTRACT_NOTE[0] == '#' && BreakFree(CONTRACT_NOTE)
  {
    PlainFits(CONTRACT_NOTE);
  }

  /** Reading a tuning file back gives exactly the operator's settings, quotes and outer spaces
      included, if and only if no text setting contains a line break. */
  lemma TuningRoundTripIff(family: string, instance: string, e: EncoderSpec)
    requires BreakFree(family) && ValidInstance(instance)
    ensures ReadText(TuningText(family, instance, e), EncoderEnv) == MapOf(TuningEntries(e)) <==> FitsOnLines(e)
  {
    TuningHead(family);
    TuningPrintableIff(e);
    TuningKeysDiffer(e);
    HeadedRoundTripIff(TUNING_NOTE + family + "-", instance, TuningEntries(e));
  }

  /** Under this key is this number, in decimal. */
  predicate Reads(m: map<string, string>, k: string, n: nat) {
    k in m && m[k] != "" && (forall c :: c in m[k] ==> IsDigit(c)) && Value(m[k]) == n
  }

  lemma ReadsDec(m: map<string, string>, k: string, n: nat)
    requires k in m && m[k] == Dec(n)
    ensures Reads(m, k, n)
  {
    ValueOfDec(n);
  }

  lemma EntryAt(e: EncoderSpec, i: nat)
    requires i < 12
    ensures TuningEntries(e)[i].0 in MapOf(TuningEntries(e))
    ensures MapOf(TuningEntries(e))[TuningEntries(e)[i].0] == TuningEntries(e)[i].1
  {
    TuningKeysDiffer(e);
    IntoIs(map[], TuningEntries(e), i);
  }

  lemma NumbersReadBack(e: EncoderSpec)
    ensures var m := MapOf(TuningEntries(e));
      && Reads(m, "WIDTH", e.width) && Reads(m, "HEIGHT", e.height) && Reads(m, "FPS", e.fps)
      && Reads(m, "BITRATE_KBPS", e.bitrate) && Reads(m, "GOP", e.gop) && Reads(m, "ROTATION", e.rotation)
  {
    var m := MapOf(TuningEntries(e));
    EntryAt(e, 2); EntryAt(e, 3); EntryAt(e, 4); EntryAt(e, 5); EntryAt(e, 6); EntryAt(e, 9);
    ReadsDec(m, "WIDTH", e.width); ReadsDec(m, "HEIGHT", e.height); ReadsDec(m, "FPS", e.fps);
    ReadsDec(m, "BITRATE_KBPS", e.bitrate); ReadsDec(m, "GOP", e.gop); ReadsDec(m, "ROTATION", e.rotation);
  }

  lemma TextsReadBack(e: EncoderSpec)
    ensures var m := MapOf(TuningEntries(e));
      && "DEVICE" in m && m["DEVICE"] == (if e.device.Some? then e.device.value else "")
      && "PIX_FMT" in m && m["PIX_FMT"] == (if e.pixFmt.Some? then e.pixFmt.value else "")
      && "PRESET" in m && m["PRESET"] == e.preset && "TUNE" in m && m["TUNE"] == e.tune
      && "SNAPSHOT_PATH" in m && m["SNAPSHOT_PATH"] == "" && "SNAPSHOT_FPS" in m && m["SNAPSHOT_FPS"] == "1"
  {
    EntryAt(e, 0); EntryAt(e, 1); EntryAt(e, 7); EntryAt(e, 8); EntryAt(e, 10); EntryAt(e, 11);
  }

  /** Key by key, what a tuning file whose settings fit on their lines reads back as: each text under its own
      key, and under each number's key that number in decimal. */
  lemma TuningReadsBack(family: string, instance: string, e: EncoderSpec)
    requires BreakFree(family) && ValidInstance(instance) && FitsOnLines(e)
    ensures var m := ReadText(TuningText(family, instance, e), EncoderEnv);
      && "DEVICE" in m && m["DEVICE"] == (if e.device.Some? then e.device.value else "")
      && "PIX_FMT" in m && m["PIX_FMT"] == (if e.pixFmt.Some? then e.pixFmt.value else "")
      && "PRESET" in m && m["PRESET"] == e.preset && "TUNE" in m && m["TUNE"] == e.tune
      && "SNAPSHOT_PATH" in m && m["SNAPSHOT_PATH"] == "" && "SNAPSHOT_FPS" in m && m["SNAPSHOT_FPS"] == "1"
      && Reads(m, "WIDTH", e.width) && Reads(m, "HEIGHT", e.height) && Reads(m, "FPS", e.fps)
      && Reads(m, "BITRATE_KBPS", e.bitrate) && Reads(m, "GOP", e.gop) && Reads(m, "ROTATION", e.rotation)
  {
    TuningRoundTripIff(family, instance, e);
    TextsReadBack(e);
    NumbersReadBack(e);
  }

  lemma OneEntry(k: string, v: string, style: Style, written: Style)
    requires CleanKey(k) && BreakFree(v)
    ensures WriteRead([(k, v)], style, written) == map[k := ValueOf(Written(v, written), style)]
  {
    ReadsEntries(map[], [(k, v)], style, written);
  }

  lemma ContractRoundTrip(port: nat)
    ensures ReadText(ContractText(port), EncoderEnv) == map["PORT" := Dec(port)] && Value(Dec(port)) == port
  {
    ValueOfDec(port);
    ContractHead();
    SkipsComment(map[], CONTRACT_NOTE, Printed(ContractEntries(port), EncoderEnv), EncoderEnv);
    DecFits(port);
    assert IsWord("PORT");
    WordIsClean("PORT");
    OneEntry("PORT", Dec(port), EncoderEnv, EncoderEnv);
    QuotedIsExact(Dec(port));
  }

  // ---------- the readers against each other ----------

  lemma {:induction false} StripPair(v: string)
    ensures Strip("\"" + v + "\"", DoubleQuote) == Strip(v, DoubleQuote)
  {
    var q := "\"" + v + "\"";
    StripDropsLast(q, DoubleQuote);
    assert q[..|q| - 1] == "\"" + v;
    assert LStrip("\"" + v, DoubleQuote) == LStrip(v, DoubleQuote) by { assert ("\"" + v)[1..] == v; }
  }

  /** A quoted value that either reader sees: the store also takes the value's own outer quotes. */
  lemma StoreReadsQuotedIff(v: string)
    ensures Kept(v, EnvStore, EncoderEnv) <==> OuterFree(v, DoubleQuote) && OuterFree(v, SingleQuote)
  {
    var q := "\"" + v + "\"";
    StripIs(q, Space);
    StripPair(v);
    var b := Strip(v, DoubleQuote);
    StripIs(v, DoubleQuote);
    StripIs(b, SingleQuote);
    SameSize(v, b, DoubleQuote);
    SameSize(b, Strip(b, SingleQuote), SingleQuote);
  }

  predicate Agree(text: string) {
    ReadText(text, EncoderEnv) == ReadText(text, EnvStore)
  }

  /** The two readers agree on a file of quoted entries exactly when no value has quotes of its own at
      its ends. */
  lemma ReadersAgreeOnQuotedIff(es: Entries)
    requires DistinctKeys(es) && Printable(es)
    ensures Agree(Printed(es, EncoderEnv)) <==>
      forall e :: e in es ==> OuterFree(e.1, DoubleQuote) && OuterFree(e.1, SingleQuote)
  {
    QuotedRoundTripIff(es);
    RoundTripIff(es, EnvStore, EncoderEnv);
    forall e | e in es ensures Kept(e.1, EnvStore, EncoderEnv) <==> OuterFree(e.1, DoubleQuote) && OuterFree(e.1, SingleQuote) {
      StoreReadsQuotedIff(e.1);
    }
  }

  /** On a clean file of the store's own the readers agree. */
  lemma ReadersAgreeOnCleanStore(es: Entries)
    requires DistinctKeys(es) && forall e :: e in es ==> CleanKey(e.0) && CleanValue(e.1)
    ensures Agree(Printed(es, EnvStore))
  {
    StoreRoundTripIff(es);
    RoundTripIff(es, EncoderEnv, EnvStore);
    forall e | e in es ensures Kept(e.1, EncoderEnv, EnvStore) {
      StripIs(e.1, Space);
    }
  }

  /** Rewriting what the store read need not read the same: stripping quotes can expose a space, which
      the next read strips too. */
  lemma RewriteNotStable()
    ensures WriteRead([("K", "\"' a'\"")], EnvStore, EnvStore) == map["K" := " a"]
    ensures WriteRead([("K", " a")], EnvStore, EnvStore) == map["K" := "a"]
  {
    assert IsWord("K");
    WordIsClean("K");
    PlainFits("\"' a'\"");
    PlainFits(" a");
    OneEntry("K", "\"' a'\"", EnvStore, EnvStore);
    OneEntry("K", " a", EnvStore, EnvStore);
    QuotesHideASpace();
    SpaceGoes();
  }

  /** Rewriting what the store read, whatever the text was, reads the same again if and only if every
      value it read is clean. */
  lemma RewriteStableIff(text: string, data: Entries)
    requires DistinctKeys(data) && MapOf(data) == ReadText(text, EnvStore)
    ensures WriteRead(data, EnvStore, EnvStore) == ReadText(text, EnvStore) <==> forall e :: e in data ==> CleanValue(e.1)
  {
    LinesBreakFree(text);
    ReadIsClean(map[], SplitLines(text), EnvStore);
    forall e | e in data ensures CleanKey(e.0) {
      var i :| 0 <= i < |data| && data[i] == e;
      IntoIs(map[], data, i);
    }
    StoreRoundTripIff(data);
  }

  lemma QuotesHideASpace()
    ensures ValueOf("\"' a'\"", EnvStore) == " a"
  {
    StripIs("\"' a'\"", Space);
    StripsTo("\"' a'\"", "' a'", DoubleQuote);
    StripsTo("' a'", " a", SingleQuote);
  }

  lemma SpaceGoes()
    ensures ValueOf(" a", EnvStore) == "a"
  {
    assert " a"[1..] == "a";
    LStripIs("a", Space);
    RStripIs("a", Space);
    StripIs("a", DoubleQuote);
    StripIs("a", SingleQuote);
  }

  lemma StripsTo(s: string, t: string, cls: Class)
    requires |s| >= 2 && In(s[0], cls) && In(s[|s| - 1], cls) && t == s[1..|s| - 1] && t != "" && OuterFree(t, cls)
    ensures Strip(s, cls) == t
  {
    StripDropsLast(s, cls);
    assert s[..|s| - 1][1..] == t;
    LStripIs(t, cls);
    RStripIs(t, cls);
  }
}
