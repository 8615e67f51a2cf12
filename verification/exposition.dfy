/** `parsePrometheusMetrics`: one forward pass over the lines of a Prometheus text exposition,
    carrying the metadata of `# HELP` and `# TYPE` lines to the sample lines after them, then
    the split of the samples into the four buckets by name prefix. */
module Exposition {
  import opened Wrappers
  import opened Strings
  import opened Seqs
  import Assoc
  import opened Numbers
  import opened MetricTypes

  /** The metadata carried forward (`currentMetric`); `None` is a field never set. */
  datatype Pending = Pending(name: Option<string>, help: Option<string>, metricType: Option<string>)

  const NoPending := Pending(None, None, None)

  // ---------------------------------------------------------------- directives

  /** `# HELP` as the source reads it: `parts[1]`, which is the word `HELP` itself, becomes the
      name and everything from `parts[2]` on, the metric name included, becomes the help. */
  function HelpAsWritten(p: Pending, line: string): Pending
  {
    var parts := Split(line, ' ');
    if |parts| >= 3 then Pending(Some(parts[1]), Some(Join(parts[2..], ' ')), None) else p
  }

  /** `# TYPE` as the source reads it: the name becomes `TYPE` and the type becomes the
      metric name. */
  function TypeAsWritten(p: Pending, line: string): Pending
  {
    var parts := Split(line, ' ');
    if |parts| >= 3 then p.(name := Some(parts[1]), metricType := Some(parts[2])) else p
  }

  /** `# HELP <name> <text>` read as intended: a fresh record of the name and the text; any
      earlier type is dropped. Without a name the line changes nothing. */
  function HelpDirective(p: Pending, line: string): Pending
  {
    var parts := Split(line, ' ');
    if |parts| >= 3 then Pending(Some(parts[2]), Some(Join(parts[3..], ' ')), None) else p
  }

  /** `# TYPE <name> <type>` read as intended: the name and the type replace the pending
      ones and the help is kept. Without a type the line changes nothing. */
  function TypeDirective(p: Pending, line: string): Pending
  {
    var parts := Split(line, ' ');
    if |parts| >= 4 then p.(name := Some(parts[2]), metricType := Some(parts[3])) else p
  }

  /** The directive line `# <word> <name> <rest>`. */
  function DirectiveLine(word: string, name: string, rest: string): string
  {
    "#" + [' '] + (word + [' '] + (name + [' '] + rest))
  }

  lemma DirectiveParts(word: string, name: string, rest: string)
    requires ' ' !in word && ' ' !in name
    ensures var parts := Split(DirectiveLine(word, name, rest), ' ');
            && |parts| >= 3 && parts[1] == word && parts[2] == name
            && parts[2..] == [name] + Split(rest, ' ') && parts[3..] == Split(rest, ' ')
  {
    SplitParts3("#", word, name, rest, ' ');
  }

  /** The intended reading of `# HELP name text` recovers the name and the whole text, and
      drops any pending type. */
  lemma HelpDirectiveReads(p: Pending, name: string, text: string)
    requires ' ' !in name
    ensures HelpDirective(p, DirectiveLine("HELP", name, text)) == Pending(Some(name), Some(text), None)
  {
    DirectiveParts("HELP", name, text);
    JoinSplit(text, ' ');
  }

  /** The intended reading of `# TYPE name type` recovers both and keeps the pending help. */
  lemma TypeDirectiveReads(p: Pending, name: string, kind: string)
    requires ' ' !in name && ' ' !in kind
    ensures TypeDirective(p, DirectiveLine("TYPE", name, kind)) == p.(name := Some(name), metricType := Some(kind))
  {
    DirectiveParts("TYPE", name, kind);
    assert Split(kind, ' ') == [kind];
  }

  /** The source's reading of the same `# HELP` line names the metric `HELP` and puts the
      metric name in front of the help text. */
  lemma HelpAsWrittenMisreads(p: Pending, name: string, text: string)
    requires ' ' !in name
    ensures HelpAsWritten(p, DirectiveLine("HELP", name, text))
            == Pending(Some("HELP"), Some(name + [' '] + text), None)
  {
    DirectiveParts("HELP", name, text);
    JoinSplit(text, ' ');
    JoinCons(name, Split(text, ' '), ' ');
  }

  /** The source's reading of `# TYPE up gauge` records the type `up`, not `gauge`. */
  lemma TypeAsWrittenMisreads(p: Pending, name: string, kind: string)
    requires ' ' !in name && ' ' !in kind
    ensures TypeAsWritten(p, DirectiveLine("TYPE", name, kind)) == p.(name := Some("TYPE"), metricType := Some(name))
  {
    DirectiveParts("TYPE", name, kind);
  }

  // ---------------------------------------------------------------- sample lines

  /** `[^\s{]` */
  predicate IsNameChar(c: char)
  {
    !IsSpace(c) && c != '{'
  }

  /** `[0-9.-]` */
  predicate IsValueChar(c: char)
  {
    IsDigit(c) || c == '.' || c == '-'
  }

  predicate NameChars(s: string)
  {
    forall i :: 0 <= i < |s| ==> IsNameChar(s[i])
  }

  predicate ValueChars(s: string)
  {
    forall i :: 0 <= i < |s| ==> IsValueChar(s[i])
  }

  /** Length of the longest run of name characters at the start of `s`. */
  function NameEnd(s: string): (n: nat)
    ensures n <= |s|
    ensures NameChars(s[..n])
    ensures n < |s| ==> !IsNameChar(s[n])
  {
    NameEndFrom(s, 0)
  }

  function NameEndFrom(s: string, k: nat): (n: nat)
    requires k <= |s|
    ensures k <= n <= |s|
    ensures forall j :: k <= j < n ==> IsNameChar(s[j])
    ensures n < |s| ==> !IsNameChar(s[n])
    decreases |s| - k
  {
    if k == |s| || !IsNameChar(s[k]) then k else NameEndFrom(s, k + 1)
  }

  /** The name run stops at the first character that cannot be in a name. */
  lemma NameEndAfter(name: string, c: char, rest: string)
    requires NameChars(name) && !IsNameChar(c)
    ensures NameEnd(name + [c] + rest) == |name|
  {
    var s := name + [c] + rest;
    assert s[|name|] == c;
    assert forall j :: 0 <= j < |name| ==> s[j] == name[j];
  }

  /** Length of the white space at the start of `s`. */
  function SpaceEnd(s: string): (n: nat)
    ensures n <= |s|
    ensures AllSpace(s[..n])
    ensures n < |s| ==> !IsSpace(s[n])
  {
    if |s| == 0 || !IsSpace(s[0]) then 0
    else
      var n := 1 + SpaceEnd(s[1..]);
      assert s[..n] == [s[0]] + s[1..][..n - 1];
      n
  }

  /** A recognised sample line: the name token, the label block with its braces if the line
      has one, and the value token. */
  datatype DataLine = DataLine(name: string, block: Option<string>, token: string)

  /** `\s+([0-9.-]+)$`: white space and then a value token that runs to the end of `s`. */
  function MatchValueTail(s: string): (r: Option<string>)
    ensures r.Some? ==> |r.value| > 0 && ValueChars(r.value) && |r.value| < |s|
  {
    var w := SpaceEnd(s);
    if w == 0 || w == |s| || !ValueChars(s[w..]) then None
    else Some(s[w..])
  }

  /** A matched tail is white space followed by the value token. */
  lemma ValueTailSound(s: string, t: string)
    requires MatchValueTail(s) == Some(t)
    ensures |t| < |s| && AllSpace(s[..|s| - |t|]) && s[|s| - |t|..] == t
  {
  }

  lemma ValueTailComplete(ws: string, token: string)
    requires |ws| > 0 && AllSpace(ws)
    requires |token| > 0 && ValueChars(token)
    ensures MatchValueTail(ws + token) == Some(token)
  {
    var s := ws + token;
    assert !IsSpace(s[|ws|]);
    assert s[..|ws|] == ws;
    assert SpaceEnd(s) == |ws|;
    assert s[|ws|..] == token;
  }

  /** `/^([^\s{]+)\s+([0-9.-]+)$/`, the sample line without labels. */
  function MatchBasic(line: string): (r: Option<DataLine>)
    ensures r.Some? ==> r.value.block.None? && |r.value.name| > 0 && NameChars(r.value.name)
    ensures r.Some? ==> |r.value.token| > 0 && ValueChars(r.value.token)
  {
    var n := NameEnd(line);
    if n == 0 then None
    else
      match MatchValueTail(line[n..])
      case None => None
      case Some(t) => Some(DataLine(line[..n], None, t))
  }

  /** A recognised line is its name, then a value tail holding its value token. */
  lemma BasicSound(line: string)
    requires MatchBasic(line).Some?
    ensures var d := MatchBasic(line).value;
            |d.name| <= |line| && line[..|d.name|] == d.name && MatchValueTail(line[|d.name|..]) == Some(d.token)
  {
  }

  /** Every line of the shape `name ws token` is recognised, with exactly those parts. */
  lemma BasicComplete(name: string, ws: string, token: string)
    requires |name| > 0 && NameChars(name)
    requires |ws| > 0 && AllSpace(ws)
    requires |token| > 0 && ValueChars(token)
    ensures MatchBasic(name + ws + token) == Some(DataLine(name, None, token))
  {
    var line := name + ws + token;
    assert !IsNameChar(line[|name|]);
    assert line[..|name|] == name;
    assert NameEnd(line) == |name|;
    assert line[|name|..] == ws + token;
    ValueTailComplete(ws, token);
  }

  /** `{[^}]+}`: a brace pair around a non-empty run free of `}`. */
  predicate BlockShape(b: string)
  {
    |b| >= 3 && b[0] == '{' && b[|b| - 1] == '}' && forall i :: 0 < i < |b| - 1 ==> b[i] != '}'
  }

  /** `/^([^\s{]+)({[^}]+})\s+([0-9.-]+)$/`, the sample line with a label block. */
  function MatchLabelled(line: string): (r: Option<DataLine>)
    ensures r.Some? ==> r.value.block.Some? && |r.value.name| > 0 && NameChars(r.value.name)
    ensures r.Some? ==> |r.value.token| > 0 && ValueChars(r.value.token)
  {
    var n := NameEnd(line);
    if n == 0 || n == |line| || line[n] != '{' then None
    else BlockFrom(line, n)
  }

  /** The labelled line whose name ends at `n`, where a `{` opens the block: the block closes
      at the first `}` after it, which must not follow it at once nor end the line. */
  function BlockFrom(line: string, n: nat): (r: Option<DataLine>)
    requires 0 < n < |line|
    ensures r.Some? ==> r.value.block.Some? && r.value.name == line[..n]
    ensures r.Some? ==> |r.value.token| > 0 && ValueChars(r.value.token)
  {
    var close := n + 1 + FindChar(line[n + 1..], '}');
    if close == n + 1 || close == |line| then None
    else LabelledFrom(line, n, close)
  }

  /** The labelled line whose name ends at `n` and whose block closes at `close`: recognised
      when a value tail follows the block. */
  function LabelledFrom(line: string, n: nat, close: nat): (r: Option<DataLine>)
    requires 0 < n < close < |line|
    ensures r.Some? <==> MatchValueTail(line[close + 1..]).Some?
    ensures r.Some? ==> r.value.name == line[..n] && r.value.block == Some(line[n..close + 1])
    ensures r.Some? ==> r.value.token == MatchValueTail(line[close + 1..]).value
  {
    match MatchValueTail(line[close + 1..])
    case None => None
    case Some(t) => Some(DataLine(line[..n], Some(line[n..close + 1]), t))
  }

  /** The block of a recognised line is a brace pair around a non-empty run free of `}`. */
  lemma LabelledBlock(line: string)
    requires MatchLabelled(line).Some?
    ensures BlockShape(MatchLabelled(line).value.block.value)
  {
    var n := NameEnd(line);
    var rest := line[n + 1..];
    var c := FindChar(rest, '}');
    var close := n + 1 + c;
    assert MatchLabelled(line) == LabelledFrom(line, n, close) by {
      assert MatchLabelled(line) == BlockFrom(line, n);
    }
    var b := line[n..close + 1];
    assert |b| == c + 2;
    forall i | 0 < i < |b| - 1 ensures b[i] != '}' {
      assert b[i] == rest[i - 1];
    }
    assert b[|b| - 1] == rest[c];
  }

  /** A recognised line is its name, then its label block, then a value tail holding its
      value token. */
  lemma LabelledSound(line: string)
    requires MatchLabelled(line).Some?
    ensures var d := MatchLabelled(line).value;
            && |d.name| + |d.block.value| <= |line|
            && line[..|d.name|] == d.name
            && line[|d.name|..|d.name| + |d.block.value|] == d.block.value
            && MatchValueTail(line[|d.name| + |d.block.value|..]) == Some(d.token)
  {
    var n := NameEnd(line);
    var close := n + 1 + FindChar(line[n + 1..], '}');
    assert MatchLabelled(line) == LabelledFrom(line, n, close) by {
      assert MatchLabelled(line) == BlockFrom(line, n);
    }
    var d := MatchLabelled(line).value;
    assert |d.name| == n && |d.block.value| == close + 1 - n;
  }

  /** Every line of the shape `name{inner} ws token`, with `inner` free of `}`, is recognised
      with exactly those parts. */
  lemma LabelledComplete(name: string, inner: string, ws: string, token: string)
    requires |name| > 0 && NameChars(name)
    requires |inner| > 0 && '}' !in inner
    requires |ws| > 0 && AllSpace(ws)
    requires |token| > 0 && ValueChars(token)
    ensures MatchLabelled(name + "{" + inner + "}" + ws + token)
            == Some(DataLine(name, Some("{" + inner + "}"), token))
  {
    assert name + "{" + inner + "}" + ws + token == name + ['{'] + (inner + ['}'] + (ws + token));
    LabelledNested(name, inner, ws, token);
  }

  lemma LabelledNested(name: string, inner: string, ws: string, token: string)
    requires |name| > 0 && NameChars(name)
    requires |inner| > 0 && '}' !in inner
    requires |ws| > 0 && AllSpace(ws)
    requires |token| > 0 && ValueChars(token)
    ensures MatchLabelled(name + ['{'] + (inner + ['}'] + (ws + token)))
            == Some(DataLine(name, Some("{" + inner + "}"), token))
  {
    var n := |name|;
    var rest := inner + ['}'] + (ws + token);
    var line := name + ['{'] + rest;
    var head := name + ['{'] + inner;
    assert line == head + ['}'] + (ws + token);
    Around(name, '{', rest);
    Around(head, '}', ws + token);
    assert MatchLabelled(line) == Some(DataLine(line[..n], Some(line[n..|head| + 1]), token)) by {
      NameEndAfter(name, '{', rest);
      FindCharAfter(inner, '}', ws + token);
      ValueTailComplete(ws, token);
      LabelledAt(line, n, |head|, token);
    }
    BlockSlices(name, inner, ws + token);
  }

  lemma BlockSlices(name: string, inner: string, tail: string)
    ensures var line := name + ['{'] + (inner + ['}'] + tail);
            line[|name|..|name + ['{'] + inner| + 1] == "{" + inner + "}"
  {
    var line := name + ['{'] + (inner + ['}'] + tail);
    assert line[|name|..|name + ['{'] + inner| + 1] == ['{'] + inner + ['}'];
  }

  /** `MatchLabelled` once the name's end, the closing brace and the value tail are known. */
  lemma LabelledAt(line: string, n: nat, close: nat, token: string)
    requires 0 < n < |line| && NameEnd(line) == n && line[n] == '{'
    requires n + 1 < close < |line| && n + 1 + FindChar(line[n + 1..], '}') == close
    requires MatchValueTail(line[close + 1..]) == Some(token)
    ensures MatchLabelled(line) == Some(DataLine(line[..n], Some(line[n..close + 1]), token))
  {
    assert MatchLabelled(line) == BlockFrom(line, n);
    assert BlockFrom(line, n) == LabelledFrom(line, n, close);
  }

  /** The two shapes, tried in the source's order. */
  function MatchData(line: string): Option<DataLine>
  {
    match MatchBasic(line)
    case Some(d) => Some(d)
    case None => MatchLabelled(line)
  }

  // ---------------------------------------------------------------- label blocks

  /** Length of the longest run free of `,` and `=` at the start of `s` (`[^,=]+`). */
  function KeyEnd(s: string): (n: nat)
    ensures n <= |s|
    ensures ',' !in s[..n] && '=' !in s[..n]
    ensures n < |s| ==> s[n] == ',' || s[n] == '='
  {
    if |s| == 0 || s[0] == ',' || s[0] == '=' then 0
    else
      var n := 1 + KeyEnd(s[1..]);
      assert s[..n] == [s[0]] + s[1..][..n - 1];
      n
  }

  /** The match of `([^,=]+)="([^"]+)"` at the very start of `s`: its two groups and its
      length. Both groups are as the regular expression's greedy classes force them. */
  function PairAt(s: string): (r: Option<(string, string, nat)>)
    ensures r.Some? ==> var (k, v, e) := r.value;
                        && |k| > 0 && ',' !in k && '=' !in k
                        && |v| > 0 && '"' !in v
                        && e == |k| + |v| + 3 && e <= |s|
                        && s[..e] == k + "=\"" + v + "\""
  {
    var k := KeyEnd(s);
    if k == 0 || k + 1 >= |s| || s[k] != '=' || s[k + 1] != '"' then None
    else
      var after := s[k + 2..];
      var v := FindChar(after, '"');
      if v == 0 || v == |after| then None
      else
        assert '"' !in after[..v];
        assert s[..k + v + 3] == s[..k] + "=\"" + after[..v] + "\"";
        Some((s[..k], after[..v], k + v + 3))
  }

  /** `inner.match(/([^,=]+)="([^"]+)"/g)`: the successive leftmost matches, as the pairs of
      their groups. */
  function ScanPairs(s: string): (r: seq<(string, string)>)
    ensures forall i :: 0 <= i < |r| ==> PairShape(r[i])
    decreases |s|
  {
    if |s| == 0 then []
    else
      match PairAt(s)
      case Some((k, v, e)) => [(k, v)] + ScanPairs(s[e..])
      case None => ScanPairs(s[1..])
  }

  /** The text of one match: the key, `=`, and the value in double quotes. */
  function PairText(k: string, v: string): string
  {
    k + ['='] + Quoted(v)
  }

  function Quoted(v: string): string
  {
    ['"'] + v + ['"']
  }

  /** As written: `const [key, val] = label.split("=")`, and when both are non-empty,
      `labels[key.trim()] = val.replace(/"/g, "")`. A value holding `=` is cut at it. */
  function EntryAsWritten(k: string, v: string): Option<(string, string)>
  {
    var parts := Split(PairText(k, v), '=');
    if |parts| >= 2 && parts[0] != "" && parts[1] != "" then Some((Trim(parts[0]), RemoveAll(parts[1], '"')))
    else None
  }

  /** As intended: the trimmed key maps to the whole quoted value. */
  function Entry(k: string, v: string): (string, string)
  {
    (Trim(k), v)
  }

  /** For values without `=` the source's reading is the intended one. */
  lemma EntryAsWrittenAgrees(k: string, v: string)
    requires |k| > 0 && ',' !in k && '=' !in k
    requires |v| > 0 && '"' !in v && '=' !in v
    ensures EntryAsWritten(k, v) == Some(Entry(k, v))
  {
    assert '=' !in Quoted(v) by {
      Around(['"'] + v, '"', []);
    }
    SplitAfter(k, Quoted(v), '=');
    RemoveAllAround(v, '"');
  }

  /** A quoted value holding `=` is its opening quote and the part before `=`, then `=`, then
      the rest and the closing quote. */
  lemma QuotedCut(a: string, b: string)
    ensures Quoted(a + "=" + b) == (['"'] + a) + ['='] + (b + ['"'])
  {
  }

  /** A value holding `=` loses everything from its first `=` on. */
  lemma EntryAsWrittenCuts(k: string, a: string, b: string)
    requires |k| > 0 && '=' !in k
    requires '=' !in a && '"' !in a
    ensures EntryAsWritten(k, a + "=" + b) == Some((Trim(k), a))
  {
    var q := ['"'] + a;
    assert Split(PairText(k, a + "=" + b), '=') == [k] + ([q] + Split(b + ['"'], '=')) by {
      QuotedCut(a, b);
      SplitAfter(k, q + ['='] + (b + ['"']), '=');
      assert '=' !in q;
      SplitAfter(q, b + ['"'], '=');
    }
    var parts := Split(PairText(k, a + "=" + b), '=');
    assert |parts| >= 2 && parts[0] == k && parts[1] == q;
    assert EntryAsWritten(k, a + "=" + b) == Some((Trim(k), RemoveAll(q, '"')));
    assert RemoveAll(q, '"') == a by {
      RemoveAllAppend(['"'], a, '"');
      assert RemoveAll(['"'], '"') == [];
    }
  }

  /** For instance `a="b=c"` gives `a` the value `b`, where the whole value is `b=c`. */
  lemma EntryAsWrittenCutsValue()
    ensures EntryAsWritten("a", "b=c") == Some(("a", "b"))
    ensures Entry("a", "b=c") == ("a", "b=c")
  {
    assert "b=c" == "b" + "=" + "c";
    EntryAsWrittenCuts("a", "b", "c");
    TrimUnchanged("a");
  }

  /** The key run stops at the `=` after a key free of `,` and `=`. */
  lemma {:induction false} KeyEndAfter(k: string, rest: string)
    requires ',' !in k && '=' !in k
    ensures KeyEnd(k + ['='] + rest) == |k|
  {
    var s := k + ['='] + rest;
    if |k| > 0 {
      assert s[0] == k[0];
      assert s[1..] == k[1..] + ['='] + rest;
      KeyEndAfter(k[1..], rest);
    }
  }

  /** The pair text of a key and a quoted value, whatever follows it, is matched there whole,
      with the key and the value as its groups, even when the value holds `=`. */
  lemma PairAtText(k: string, v: string, tail: string)
    requires |k| > 0 && ',' !in k && '=' !in k
    requires |v| > 0 && '"' !in v
    ensures PairAt(PairText(k, v) + tail) == Some((k, v, |k| + |v| + 3))
  {
    var s := PairText(k, v) + tail;
    assert s == k + ['='] + (Quoted(v) + tail);
    KeyEndAfter(k, Quoted(v) + tail);
    Around(k, '=', Quoted(v) + tail);
    var after := s[|k| + 2..];
    assert after == v + ['"'] + tail;
    FindCharAfter(v, '"', tail);
    Around(v, '"', tail);
  }

  /** What the pair-text lemmas ask of a matched pair: a key free of `,` and `=` and a
      value free of `"`, both non-empty. */
  predicate PairShape(pair: (string, string))
  {
    |pair.0| > 0 && ',' !in pair.0 && '=' !in pair.0 && |pair.1| > 0 && '"' !in pair.1
  }

  function PairOf(pair: (string, string)): string
  {
    PairText(pair.0, pair.1)
  }

  /** The pairs written out as the inside of a label block, `k1="v1",k2="v2"`. */
  function PairsText(pairs: seq<(string, string)>): string
  {
    Join(MapSeq(pairs, PairOf), ',')
  }

  /** Scanning the written-out pairs gives back exactly those pairs, in order. */
  lemma {:induction false} ScanPairsText(pairs: seq<(string, string)>)
    requires forall i :: 0 <= i < |pairs| ==> PairShape(pairs[i])
    ensures ScanPairs(PairsText(pairs)) == pairs
  {
    if |pairs| == 0 {
      assert PairsText(pairs) == "";
    } else {
      var (k, v) := pairs[0];
      var e := |k| + |v| + 3;
      var texts := MapSeq(pairs, PairOf);
      if |pairs| == 1 {
        assert PairsText(pairs) == PairText(k, v) + [];
        PairAtText(k, v, []);
        assert |PairText(k, v)| == e;
        assert PairsText(pairs)[e..] == [];
      } else {
        var rest := PairsText(pairs[1..]);
        assert texts == [PairText(k, v)] + MapSeq(pairs[1..], PairOf);
        JoinCons(PairText(k, v), MapSeq(pairs[1..], PairOf), ',');
        var s := PairText(k, v) + ([','] + rest);
        assert PairsText(pairs) == s;
        PairAtText(k, v, [','] + rest);
        assert |PairText(k, v)| == e;
        assert s[e..] == [','] + rest;
        assert PairAt([','] + rest) == None;
        assert ([','] + rest)[1..] == rest;
        ScanPairsText(pairs[1..]);
        assert ScanPairs(s) == [(k, v)] + pairs[1..];
      }
    }
  }

  /** Which reading of the directives and of the label entries a pass follows: the source's
      own, or the evidently intended one (`HelpAsWrittenMisreads`, `TypeAsWrittenMisreads` and
      `EntryAsWrittenCutsValue` show where they part). */
  datatype Reading = AsWritten | Intended

  function HelpLine(reading: Reading, p: Pending, line: string): Pending
  {
    match reading
    case AsWritten => HelpAsWritten(p, line)
    case Intended => HelpDirective(p, line)
  }

  function TypeLine(reading: Reading, p: Pending, line: string): Pending
  {
    match reading
    case AsWritten => TypeAsWritten(p, line)
    case Intended => TypeDirective(p, line)
  }

  function EntryOf(reading: Reading, k: string, v: string): Option<(string, string)>
  {
    match reading
    case AsWritten => EntryAsWritten(k, v)
    case Intended => Some(Entry(k, v))
  }

  /** The label map built from the matches in order (`labels[key] = value`, later keys
      overwriting earlier ones in place). */
  function LabelsFrom(reading: Reading, pairs: seq<(string, string)>): Labels
  {
    if |pairs| == 0 then []
    else
      var before := LabelsFrom(reading, pairs[..|pairs| - 1]);
      match EntryOf(reading, pairs[|pairs| - 1].0, pairs[|pairs| - 1].1)
      case None => before
      case Some((k, v)) => Assoc.Put(before, k, v)
  }

  /** The text between the braces of a block `{...}`. */
  function Inner(block: string): string
  {
    if |block| < 2 then "" else block[1..|block| - 1]
  }

  /** The labels of a block `{...}`: the pairs matched inside the braces. */
  function ParseLabels(reading: Reading, block: string): Labels
  {
    LabelsFrom(reading, ScanPairs(Inner(block)))
  }

  /** The pair whose trimmed key is `key`. */
  function TrimmedKeyIs(key: string): ((string, string)) -> bool
  {
    (pair: (string, string)) => Trim(pair.0) == key
  }

  /** Read as intended, a key holds the value of the last pair whose trimmed key it is, and
      no other key is present. */
  lemma {:induction false} LabelsFromGet(pairs: seq<(string, string)>, key: string)
    ensures Assoc.Get(LabelsFrom(Intended, pairs), key)
            == match LastOf(pairs, TrimmedKeyIs(key)) case Some(pair) => Some(pair.1) case None => None
  {
    if |pairs| > 0 {
      var init := pairs[..|pairs| - 1];
      var last := pairs[|pairs| - 1];
      assert pairs == init + [last];
      LabelsFromGet(init, key);
      LastOfSnoc(init, last, TrimmedKeyIs(key));
      if Trim(last.0) != key {
        Assoc.PutOther(LabelsFrom(Intended, init), Trim(last.0), last.1, key);
      }
    }
  }

  /** A block written out from well-formed pairs reads back, as intended, as the fold of
      those pairs: so each key gets the value of its last pair (`LabelsFromGet`). */
  lemma LabelsOfBlock(pairs: seq<(string, string)>)
    requires forall i :: 0 <= i < |pairs| ==> PairShape(pairs[i])
    ensures ParseLabels(Intended, "{" + PairsText(pairs) + "}") == LabelsFrom(Intended, pairs)
  {
    var block := "{" + PairsText(pairs) + "}";
    assert Inner(block) == PairsText(pairs);
    ScanPairsText(pairs);
  }

  /** Read as intended, a block holding one pair gives its trimmed key the whole value, `=`
      and all. */
  lemma SingleLabel(k: string, v: string)
    requires |k| > 0 && ',' !in k && '=' !in k
    requires |v| > 0 && '"' !in v
    ensures ParseLabels(Intended, "{" + PairText(k, v) + "}") == [(Trim(k), v)]
  {
    var block := "{" + PairText(k, v) + "}";
    assert Inner(block) == PairText(k, v);
    PairAtText(k, v, []);
    var e := |k| + |v| + 3;
    assert PairText(k, v) + [] == PairText(k, v);
    assert |PairText(k, v)| == e;
    assert PairText(k, v)[e..] == [];
    assert ScanPairs(PairText(k, v)) == [(k, v)];
    assert ParseLabels(Intended, block) == LabelsFrom(Intended, [(k, v)]);
    assert [(k, v)][..0] == [];
    assert LabelsFrom(Intended, [(k, v)]) == Assoc.Put([], Trim(k), v);
  }

  /** The label values of a block, as matched, hold no `=`. */
  predicate NoEqualsInValues(block: string)
  {
    var pairs := ScanPairs(Inner(block));
    forall i :: 0 <= i < |pairs| ==> '=' !in pairs[i].1
  }

  /** On matched pairs whose values hold no `=`, the source's entries are the intended ones. */
  lemma {:induction false} LabelsAgree(pairs: seq<(string, string)>)
    requires forall i :: 0 <= i < |pairs| ==> PairShape(pairs[i]) && '=' !in pairs[i].1
    ensures LabelsFrom(AsWritten, pairs) == LabelsFrom(Intended, pairs)
  {
    if |pairs| > 0 {
      var init := pairs[..|pairs| - 1];
      assert forall i :: 0 <= i < |init| ==> init[i] == pairs[i];
      LabelsAgree(init);
      var last := pairs[|pairs| - 1];
      assert PairShape(last) && '=' !in last.1;
      EntryAsWrittenAgrees(last.0, last.1);
    }
  }

  // ---------------------------------------------------------------- the pass

  function TypeOrDefault(p: Pending): string
  {
    match p.metricType
    case Some(t) => if t != "" then t else "untyped"
    case None => "untyped"
  }

  function HelpOrDefault(p: Pending): string
  {
    p.help.GetOr("")
  }

  /** A recognised line starts with its name. */
  lemma DataNamePrefix(line: string)
    requires MatchData(line).Some?
    ensures StartsWith(line, MatchData(line).value.name)
  {
    if MatchBasic(line).Some? {
      BasicSound(line);
    } else {
      LabelledSound(line);
    }
  }

  /** The sample a data line emits: one exactly when its shape is recognised and its value
      token is a number, carrying the line's name and value, the pending type and help, and
      the labels of its block when it has one. */
  function Emit(reading: Reading, p: Pending, line: string): (r: seq<Sample>)
    ensures |r| <= 1
    ensures |r| == 1 <==> MatchData(line).Some? && ParseNum(MatchData(line).value.token).Some?
    ensures |r| == 1 ==> var d := MatchData(line).value;
                         && r[0].name == d.name && r[0].value == ParseNum(d.token).value
                         && |r[0].name| > 0 && NameChars(r[0].name) && StartsWith(line, r[0].name)
    ensures |r| == 1 ==> r[0].metricType == TypeOrDefault(p) && r[0].help == HelpOrDefault(p)
    ensures |r| == 1 ==> (r[0].labels.Some? <==> MatchBasic(line).None?)
    ensures |r| == 1 && r[0].labels.Some? ==> r[0].labels.value == ParseLabels(reading, MatchData(line).value.block.value)
  {
    match MatchData(line)
    case None => []
    case Some(d) =>
      match ParseNum(d.token)
      case None => []
      case Some(v) =>
        var labels := if d.block.Some? then Some(ParseLabels(reading, d.block.value)) else None;
        DataNamePrefix(line);
        [Sample(d.name, TypeOrDefault(p), HelpOrDefault(p), v, labels)]
  }

  /** One line of the pass: the pending metadata after it and what it emits. */
  function StepLine(reading: Reading, p: Pending, line: string): (Pending, seq<Sample>)
  {
    if line == "" then (p, [])
    else if StartsWith(line, "# HELP") then (HelpLine(reading, p, line), [])
    else if StartsWith(line, "# TYPE") then (TypeLine(reading, p, line), [])
    else if StartsWith(line, "#") then (p, [])
    else (p, Emit(reading, p, line))
  }

  function Step(reading: Reading): (Pending, string) -> (Pending, seq<Sample>)
  {
    (p, line) => StepLine(reading, p, line)
  }

  /** What one line does: blank lines and comments other than `# HELP` and `# TYPE` change
      nothing, directives emit nothing, and a line that emits leaves the metadata alone and
      emits what `Emit` makes of it. */
  lemma StepLineEffect(reading: Reading, p: Pending, line: string)
    ensures var r := StepLine(reading, p, line);
            && |r.1| <= 1
            && (line == "" ==> r == (p, []))
            && (StartsWith(line, "#") && !StartsWith(line, "# HELP") && !StartsWith(line, "# TYPE") ==> r == (p, []))
            && (StartsWith(line, "#") ==> r.1 == [])
            && (r.1 != [] ==> r.0 == p && !StartsWith(line, "#") && r.1 == Emit(reading, p, line))
  {
    if StartsWith(line, "# HELP") || StartsWith(line, "# TYPE") {
      assert StartsWith(line, "#") by {
        assert line[..1] == line[..6][..1];
      }
    }
  }

  /** The pass over `lines` from the pending metadata `p0`: the metadata at the end and the
      samples in line order. */
  function ScanLines(reading: Reading, p0: Pending, lines: seq<string>): (Pending, seq<Sample>)
  {
    Scan(Step(reading), p0, lines)
  }

  /** Every emitted sample has a non-empty name made of name characters and a type that is
      never empty. */
  lemma {:induction false} ScanSamplesNamed(reading: Reading, p0: Pending, lines: seq<string>)
    ensures forall s :: s in ScanLines(reading, p0, lines).1 ==> |s.name| > 0 && NameChars(s.name) && s.metricType != ""
  {
    if |lines| > 0 {
      ScanSamplesNamed(reading, p0, lines[..|lines| - 1]);
      var p := ScanLines(reading, p0, lines[..|lines| - 1]).0;
      StepLineEffect(reading, p, lines[|lines| - 1]);
    }
  }

  /** The sample a data line emits does not depend on the pending name: its name is the
      line's own token. */
  lemma EmitIgnoresPendingName(reading: Reading, p: Pending, line: string, other: Option<string>)
    ensures Emit(reading, p.(name := other), line) == Emit(reading, p, line)
  {
  }

  // ---------------------------------------------------------------- the pass, line by line

  /** The metadata a line leaves pending: a directive updates it, every other line keeps it. */
  function Directed(reading: Reading, p: Pending, line: string): Pending
  {
    if StartsWith(line, "# HELP") then HelpLine(reading, p, line)
    else if StartsWith(line, "# TYPE") then TypeLine(reading, p, line)
    else p
  }

  /** The metadata pending before line `i`: the directives among the lines before it,
      applied in order. */
  function PendingBefore(reading: Reading, lines: seq<string>, i: nat): Pending
    requires i <= |lines|
  {
    if i == 0 then NoPending else Directed(reading, PendingBefore(reading, lines, i - 1), lines[i - 1])
  }

  /** A line that may emit: neither blank nor a comment. */
  predicate IsSampleLine(line: string)
  {
    line != "" && !StartsWith(line, "#")
  }

  /** What line `i` contributes: for a sample line, what `Emit` makes of it under the
      metadata pending before it; nothing otherwise. */
  function LineSamples(reading: Reading, lines: seq<string>, i: nat): seq<Sample>
    requires i < |lines|
  {
    if IsSampleLine(lines[i]) then Emit(reading, PendingBefore(reading, lines, i), lines[i]) else []
  }

  /** The contributions of the first `n` lines, concatenated in line order. */
  function EmittedUpTo(reading: Reading, lines: seq<string>, n: nat): seq<Sample>
    requires n <= |lines|
  {
    if n == 0 then [] else EmittedUpTo(reading, lines, n - 1) + LineSamples(reading, lines, n - 1)
  }

  /** One line of the pass is the directive update of the metadata and, on a sample line,
      the line's `Emit`. */
  lemma StepLineSplits(reading: Reading, p: Pending, line: string)
    ensures StepLine(reading, p, line)
            == (Directed(reading, p, line), if IsSampleLine(line) then Emit(reading, p, line) else [])
  {
    if line == "" {
      assert !StartsWith(line, "# HELP") && !StartsWith(line, "# TYPE");
    } else if StartsWith(line, "# HELP") || StartsWith(line, "# TYPE") {
      assert StartsWith(line, "#") by {
        assert line[..1] == line[..6][..1];
      }
    }
  }

  /** The pass over the first `n` lines leaves the metadata the directives among them leave,
      and emits the per-line contributions in line order. */
  lemma {:induction false} PassIsLineByLine(reading: Reading, lines: seq<string>, n: nat)
    requires n <= |lines|
    ensures ScanLines(reading, NoPending, lines[..n]) == (PendingBefore(reading, lines, n), EmittedUpTo(reading, lines, n))
  {
    if n > 0 {
      PassIsLineByLine(reading, lines, n - 1);
      PassStep(reading, lines, n);
    }
  }

  /** If the pass over the first `n - 1` lines is line by line, so is the pass over the
      first `n`. */
  lemma PassStep(reading: Reading, lines: seq<string>, n: nat)
    requires 0 < n <= |lines|
    requires ScanLines(reading, NoPending, lines[..n - 1]) == (PendingBefore(reading, lines, n - 1), EmittedUpTo(reading, lines, n - 1))
    ensures ScanLines(reading, NoPending, lines[..n]) == (PendingBefore(reading, lines, n), EmittedUpTo(reading, lines, n))
  {
    PassSnoc(reading, lines, n);
    StepMatchesLine(reading, lines, n);
  }

  /** The pass over the first `n` lines is the pass over the first `n - 1` followed by one
      step on line `n - 1`. */
  lemma PassSnoc(reading: Reading, lines: seq<string>, n: nat)
    requires 0 < n <= |lines|
    ensures var before := ScanLines(reading, NoPending, lines[..n - 1]);
            var last := StepLine(reading, before.0, lines[n - 1]);
            ScanLines(reading, NoPending, lines[..n]) == (last.0, before.1 + last.1)
  {
    assert lines[..n] == lines[..n - 1] + [lines[n - 1]];
    ScanLinesSnoc(reading, NoPending, lines[..n - 1], lines[n - 1]);
  }

  /** The pass over a run and one more line is the pass over the run followed by one step
      on that line. */
  lemma ScanLinesSnoc(reading: Reading, p0: Pending, init: seq<string>, line: string)
    ensures var before := ScanLines(reading, p0, init);
            var last := StepLine(reading, before.0, line);
            ScanLines(reading, p0, init + [line]) == (last.0, before.1 + last.1)
  {
    var xs := init + [line];
    assert xs[..|xs| - 1] == init;
    var before := ScanLines(reading, p0, init);
    assert Step(reading)(before.0, line) == StepLine(reading, before.0, line);
  }

  /** The step on line `n - 1`, from the metadata pending before it, is that line's
      directive update and contribution. */
  lemma StepMatchesLine(reading: Reading, lines: seq<string>, n: nat)
    requires 0 < n <= |lines|
    ensures StepLine(reading, PendingBefore(reading, lines, n - 1), lines[n - 1])
            == (PendingBefore(reading, lines, n), LineSamples(reading, lines, n - 1))
  {
    StepLineSplits(reading, PendingBefore(reading, lines, n - 1), lines[n - 1]);
  }

  /** The lines of the trimmed text. */
  function Lines(text: string): seq<string>
  {
    Split(Trim(text), '\n')
  }

  /** The samples of the whole text, in line order (`metrics`). */
  function ParseSamples(reading: Reading, text: string): (r: seq<Sample>)
    ensures r == EmittedUpTo(reading, Lines(text), |Lines(text)|)
  {
    var lines := Lines(text);
    PassIsLineByLine(reading, lines, |lines|);
    assert lines[..|lines|] == lines;
    ScanLines(reading, NoPending, lines).1
  }

  // ---------------------------------------------------------------- the two readings agree

  /** A line on which the two readings cannot differ: it is no directive, and the label
      values of its block, if any, hold no `=`. */
  predicate ReadingsAgreeOn(line: string)
  {
    && !StartsWith(line, "# HELP")
    && !StartsWith(line, "# TYPE")
    && (MatchData(line).Some? && MatchData(line).value.block.Some? ==> NoEqualsInValues(MatchData(line).value.block.value))
  }

  lemma EmitAgrees(p: Pending, line: string)
    requires ReadingsAgreeOn(line)
    ensures Emit(AsWritten, p, line) == Emit(Intended, p, line)
  {
    if MatchData(line).Some? && MatchData(line).value.block.Some? {
      LabelsAgree(ScanPairs(Inner(MatchData(line).value.block.value)));
    }
  }

  /** On lines where the readings agree, the source's pass and the intended pass are the same
      pass. */
  lemma {:induction false} ScanAgrees(p0: Pending, lines: seq<string>)
    requires forall i :: 0 <= i < |lines| ==> ReadingsAgreeOn(lines[i])
    ensures ScanLines(AsWritten, p0, lines) == ScanLines(Intended, p0, lines)
  {
    if |lines| > 0 {
      var init := lines[..|lines| - 1];
      assert forall i :: 0 <= i < |init| ==> init[i] == lines[i];
      ScanAgrees(p0, init);
      EmitAgrees(ScanLines(AsWritten, p0, init).0, lines[|lines| - 1]);
    }
  }

  // ---------------------------------------------------------------- classification

  function NamePrefixed(prefix: string): Sample -> bool
  {
    (s: Sample) => StartsWith(s.name, prefix)
  }

  /** The four order-preserving filters by name prefix. */
  function Classify(samples: seq<Sample>): (r: ParsedMetrics)
    ensures forall s :: s in r.processMetrics <==> s in samples && StartsWith(s.name, "process_")
    ensures forall s :: s in r.nodeMetrics <==> s in samples && StartsWith(s.name, "nodejs_")
    ensures forall s :: s in r.httpMetrics <==> s in samples && StartsWith(s.name, "http_")
    ensures forall s :: s in r.customMetrics <==> s in samples && StartsWith(s.name, "mw_")
  {
    ParsedMetrics(
      Filter(samples, NamePrefixed("process_")),
      Filter(samples, NamePrefixed("nodejs_")),
      Filter(samples, NamePrefixed("http_")),
      Filter(samples, NamePrefixed("mw_")))
  }

  /** No sample lands in two buckets. */
  lemma ClassifyDisjoint(samples: seq<Sample>)
    ensures var r := Classify(samples);
            && multiset(r.processMetrics) * multiset(r.nodeMetrics) == multiset{}
            && multiset(r.processMetrics) * multiset(r.httpMetrics) == multiset{}
            && multiset(r.processMetrics) * multiset(r.customMetrics) == multiset{}
            && multiset(r.nodeMetrics) * multiset(r.httpMetrics) == multiset{}
            && multiset(r.nodeMetrics) * multiset(r.customMetrics) == multiset{}
            && multiset(r.httpMetrics) * multiset(r.customMetrics) == multiset{}
  {
    var r := Classify(samples);
    assert multiset(r.processMetrics) * multiset(r.nodeMetrics) == multiset{} by {
      PrefixesExclusive("process_", "nodejs_");
      FilterDisjoint(samples, NamePrefixed("process_"), NamePrefixed("nodejs_"));
    }
    assert multiset(r.processMetrics) * multiset(r.httpMetrics) == multiset{} by {
      PrefixesExclusive("process_", "http_");
      FilterDisjoint(samples, NamePrefixed("process_"), NamePrefixed("http_"));
    }
    assert multiset(r.processMetrics) * multiset(r.customMetrics) == multiset{} by {
      PrefixesExclusive("process_", "mw_");
      FilterDisjoint(samples, NamePrefixed("process_"), NamePrefixed("mw_"));
    }
    assert multiset(r.nodeMetrics) * multiset(r.httpMetrics) == multiset{} by {
      PrefixesExclusive("nodejs_", "http_");
      FilterDisjoint(samples, NamePrefixed("nodejs_"), NamePrefixed("http_"));
    }
    assert multiset(r.nodeMetrics) * multiset(r.customMetrics) == multiset{} by {
      PrefixesExclusive("nodejs_", "mw_");
      FilterDisjoint(samples, NamePrefixed("nodejs_"), NamePrefixed("mw_"));
    }
    assert multiset(r.httpMetrics) * multiset(r.customMetrics) == multiset{} by {
      PrefixesExclusive("http_", "mw_");
      FilterDisjoint(samples, NamePrefixed("http_"), NamePrefixed("mw_"));
    }
  }

  /** No name starts with two prefixes that differ in their first character. */
  lemma PrefixesExclusive(a: string, b: string)
    requires |a| > 0 && |b| > 0 && a[0] != b[0]
    ensures forall s :: NamePrefixed(a)(s) ==> !NamePrefixed(b)(s)
  {
    forall s | NamePrefixed(a)(s) ensures !NamePrefixed(b)(s) {
      assert s.name[0] == a[0];
    }
  }

  /** Classifying two runs of samples gives the buckets of each, concatenated. */
  lemma ClassifyAppend(a: seq<Sample>, b: seq<Sample>)
    ensures var (ra, rb, r) := (Classify(a), Classify(b), Classify(a + b));
            && r.processMetrics == ra.processMetrics + rb.processMetrics
            && r.nodeMetrics == ra.nodeMetrics + rb.nodeMetrics
            && r.httpMetrics == ra.httpMetrics + rb.httpMetrics
            && r.customMetrics == ra.customMetrics + rb.customMetrics
  {
    FilterAppend(a, b, NamePrefixed("process_"));
    FilterAppend(a, b, NamePrefixed("nodejs_"));
    FilterAppend(a, b, NamePrefixed("http_"));
    FilterAppend(a, b, NamePrefixed("mw_"));
  }

  datatype ParseError = NoMetricsData

  /** `parsePrometheusMetrics(text)`, as the source reads it: throws on the empty string only,
      and otherwise classifies, in line order, what each line of the trimmed text emits under
      the metadata the directives before it leave pending. */
  function ParsePrometheusMetrics(text: string): (r: Result<ParsedMetrics, ParseError>)
    ensures r.Failure? <==> text == ""
    ensures r.Success? ==> r.value == Classify(EmittedUpTo(AsWritten, Lines(text), |Lines(text)|))
  {
    if text == "" then Failure(NoMetricsData) else Success(Classify(ParseSamples(AsWritten, text)))
  }

  /** The same pass with `# HELP`, `# TYPE` and label values read as evidently intended. */
  function ParseIntended(text: string): (r: Result<ParsedMetrics, ParseError>)
    ensures r.Failure? <==> text == ""
    ensures r.Success? ==> r.value == Classify(EmittedUpTo(Intended, Lines(text), |Lines(text)|))
  {
    if text == "" then Failure(NoMetricsData) else Success(Classify(ParseSamples(Intended, text)))
  }

  /** A text without directives and without `=` in label values parses the same under both
      readings. */
  lemma ParseReadingsAgree(text: string)
    requires forall i :: 0 <= i < |Lines(text)| ==> ReadingsAgreeOn(Lines(text)[i])
    ensures ParsePrometheusMetrics(text) == ParseIntended(text)
  {
    ScanAgrees(NoPending, Lines(text));
  }

  /** Where the readings part: after `# TYPE <name> <kind>`, the source gives the next sample
      the type `<name>` and the intended reading gives it `<kind>`. */
  lemma TypeReadingsDiffer(name: string, kind: string, line: string)
    requires |name| > 0 && ' ' !in name && |kind| > 0 && ' ' !in kind
    requires IsSampleLine(line) && MatchData(line).Some? && ParseNum(MatchData(line).value.token).Some?
    ensures var lines := [DirectiveLine("TYPE", name, kind), line];
            && |EmittedUpTo(AsWritten, lines, 2)| == 1 && EmittedUpTo(AsWritten, lines, 2)[0].metricType == name
            && |EmittedUpTo(Intended, lines, 2)| == 1 && EmittedUpTo(Intended, lines, 2)[0].metricType == kind
  {
    var directive := DirectiveLine("TYPE", name, kind);
    TypeLineIsDirective(name, kind);
    var lines := [directive, line];
    assert |EmittedUpTo(AsWritten, lines, 2)| == 1 && EmittedUpTo(AsWritten, lines, 2)[0].metricType == name by {
      TypeAsWrittenMisreads(NoPending, name, kind);
      TypeThenSample(AsWritten, directive, line);
    }
    assert |EmittedUpTo(Intended, lines, 2)| == 1 && EmittedUpTo(Intended, lines, 2)[0].metricType == kind by {
      TypeDirectiveReads(NoPending, name, kind);
      TypeThenSample(Intended, directive, line);
    }
  }

  /** A `# TYPE` line is that directive, not `# HELP` and not a sample line. */
  lemma TypeLineIsDirective(name: string, kind: string)
    ensures var directive := DirectiveLine("TYPE", name, kind);
            StartsWith(directive, "# TYPE") && !StartsWith(directive, "# HELP") && !IsSampleLine(directive)
  {
    var directive := DirectiveLine("TYPE", name, kind);
    assert directive == "# TYPE" + [' '] + (name + [' '] + kind);
    assert directive[..6] == "# TYPE";
  }

  /** A `# TYPE` line followed by a sample line: the one sample carries the type the
      directive left pending. */
  lemma TypeThenSample(reading: Reading, directive: string, line: string)
    requires StartsWith(directive, "# TYPE") && !StartsWith(directive, "# HELP") && !IsSampleLine(directive)
    requires IsSampleLine(line) && MatchData(line).Some? && ParseNum(MatchData(line).value.token).Some?
    ensures var lines := [directive, line];
            && |EmittedUpTo(reading, lines, 2)| == 1
            && EmittedUpTo(reading, lines, 2)[0].metricType == TypeOrDefault(TypeLine(reading, NoPending, directive))
  {
    var lines := [directive, line];
    var p := PendingBefore(reading, lines, 1);
    assert p == TypeLine(reading, NoPending, directive) by {
      assert PendingBefore(reading, lines, 0) == NoPending;
    }
    assert EmittedUpTo(reading, lines, 1) == [] by {
      assert LineSamples(reading, lines, 0) == [];
    }
    var e := Emit(reading, p, line);
    assert LineSamples(reading, lines, 1) == e;
    assert EmittedUpTo(reading, lines, 2) == [] + e;
  }

  /** White space alone is not an error: it trims to one empty line and gives four empty
      buckets. */
  lemma WhitespaceOnly(text: string)
    requires text != "" && AllSpace(text)
    ensures ParsePrometheusMetrics(text) == Success(ParsedMetrics([], [], [], []))
  {
    assert Trim(text) == "";
    assert Lines(text) == [""];
    assert EmittedUpTo(AsWritten, [""], 1) == [] + LineSamples(AsWritten, [""], 0);
  }
}
