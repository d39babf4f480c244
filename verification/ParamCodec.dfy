/** The key=value text format: escaping of names and values, and the reader of such files.
    encode_param, decode_param and read_istream_kv_str live in a library outside the repository;
    these functions fix the behaviour the repository's tests show of them. */
module ParamCodec {
  import opened Text

  type Pair = (string, string)

  const BLANKS: set<char> := {' ', '\t', '\r', '\U{000b}', '\U{000c}'}

  /** The characters the reader strips from the end of a line: '\r' for sure, other blanks
      perhaps. Every result holds whichever set it is. */
  type LineEnds = ws: set<char> | '\r' in ws && ws <= BLANKS witness {'\r'}

  // ---- escaping ------------------------------------------------------------------------

  function EncodeChar(c: char): (e: string)
    ensures e != ""
  {
    match c
    case '\\' => "\\\\"
    case '=' => "\\="
    case '\n' => "\\n"
    case _ => [c]
  }

  function Encode(s: string): string
  {
    if s == "" then "" else EncodeChar(s[0]) + Encode(s[1..])
  }

  function DecodeEscape(c: char): Option<char>
  {
    match c
    case '\\' => Some('\\')
    case '=' => Some('=')
    case 'n' => Some('\n')
    case _ => None
  }

  function Prepend(c: Option<char>, s: Option<string>): Option<string>
  {
    if c.Some? && s.Some? then Some([c.value] + s.value) else None
  }

  /** None when the text ends inside an escape or holds an unknown one. */
  function Decode(s: string): Option<string>
  {
    if s == "" then Some("")
    else if s[0] != '\\' then Prepend(Some(s[0]), Decode(s[1..]))
    else if |s| == 1 then None
    else Prepend(DecodeEscape(s[1]), Decode(s[2..]))
  }

  /** Only three characters change when a text is encoded. */
  lemma EncodeOne(c: char)
    ensures Encode([c]) == (if c == '\\' then "\\\\" else if c == '=' then "\\=" else if c == '\n' then "\\n" else [c])
  {
    assert [c][1..] == "";
  }

  /** Decoding takes a text apart from the front: each of the three escapes gives its character, any other
      and one cut off by the end give an error, and any other character stands for itself. */
  lemma DecodeParts(c: char, s: string)
    ensures Decode("") == Some("") && Decode("\\") == None
    ensures c != '\\' ==> Decode([c] + s) == if Decode(s) == None then None else Some([c] + Decode(s).value)
    ensures Decode("\\" + [c] + s) ==
            if Decode(s) == None || c !in {'\\', '=', 'n'} then None
            else Some([if c == 'n' then '\n' else c] + Decode(s).value)
  {
    assert ([c] + s)[1..] == s;
    assert ("\\" + [c] + s)[2..] == s;
  }

  /** No '=' is left unescaped and no escape is cut off. */
  predicate Escaped(s: string)
  {
    s == "" || (if s[0] == '\\' then |s| > 1 && Escaped(s[2..]) else s[0] != '=' && Escaped(s[1..]))
  }

  /** Decoding undoes encoding, on every string. */
  lemma {:induction false} DecodeEncode(s: string)
    ensures Decode(Encode(s)) == Some(s)
  {
    if s != "" {
      DecodeEncode(s[1..]);
      var e := EncodeChar(s[0]);
      assert Encode(s)[|e|..] == Encode(s[1..]);
      assert [s[0]] + s[1..] == s;
    }
  }

  lemma EncodeInjective(s: string, t: string)
    requires Encode(s) == Encode(t)
    ensures s == t
  {
    DecodeEncode(s);
    DecodeEncode(t);
  }

  lemma {:induction false} EncodeEscaped(s: string)
    ensures Escaped(Encode(s)) && '\n' !in Encode(s)
    ensures Encode(s) == "" <==> s == ""
  {
    if s != "" {
      EncodeEscaped(s[1..]);
      var e := EncodeChar(s[0]);
      assert Encode(s)[|e|..] == Encode(s[1..]);
    }
  }

  /** An escaped text without line ends has one decoding and is the encoding of it: two different
      keys of a file never denote the same name. */
  lemma {:induction false} EncodeDecode(s: string)
    requires Escaped(s) && '\n' !in s && Decode(s).Some?
    ensures Encode(Decode(s).value) == s
  {
    if s != "" {
      var k := if s[0] == '\\' then 2 else 1;
      EncodeDecode(s[k..]);
      var d := Decode(s).value;
      assert d[1..] == Decode(s[k..]).value;
      assert s == s[..k] + s[k..];
      assert EncodeChar(d[0]) == s[..k];
    }
  }

  // ---- lines ---------------------------------------------------------------------------

  function TrimEnd(ws: LineEnds, s: string): string
  {
    if s != "" && s[|s| - 1] in ws then TrimEnd(ws, s[..|s| - 1]) else s
  }

  lemma {:induction false} TrimEndIdempotent(ws: LineEnds, s: string)
    ensures TrimEnd(ws, TrimEnd(ws, s)) == TrimEnd(ws, s)
    ensures TrimEnd(ws, s) <= s
  {
    if s != "" && s[|s| - 1] in ws { TrimEndIdempotent(ws, s[..|s| - 1]); }
  }

  /** Exactly the longest tail of such characters goes. */
  lemma {:induction false} TrimEndIs(ws: LineEnds, s: string)
    ensures TrimEnd(ws, s) <= s && forall i :: |TrimEnd(ws, s)| <= i < |s| ==> s[i] in ws
    ensures TrimEnd(ws, s) != "" ==> TrimEnd(ws, s)[|TrimEnd(ws, s)| - 1] !in ws
  {
    if s != "" && s[|s| - 1] in ws { TrimEndIs(ws, s[..|s| - 1]); }
  }

  /** Trimming stops at a character that is not trimmed. */
  lemma {:induction false} TrimEndBehind(ws: LineEnds, a: string, b: string)
    requires a != "" && a[|a| - 1] !in ws
    ensures TrimEnd(ws, a + b) == a + TrimEnd(ws, b)
  {
    if b == "" {
      assert a + b == a;
    } else {
      var k := |b| - 1;
      assert (a + b)[..|a + b| - 1] == a + b[..k];
      TrimEndBehind(ws, a, b[..k]);
    }
  }

  lemma {:induction false} EncodeSnoc(s: string, c: char)
    ensures Encode(s + [c]) == Encode(s) + EncodeChar(c)
  {
    if s == "" {
      assert s + [c] == [c];
    } else {
      EncodeSnoc(s[1..], c);
      assert (s + [c])[1..] == s[1..] + [c];
    }
  }

  /** Trimming the encoded text trims the text. */
  lemma {:induction false} TrimEncode(ws: LineEnds, s: string)
    ensures TrimEnd(ws, Encode(s)) == Encode(TrimEnd(ws, s))
  {
    if s != "" {
      var k := |s| - 1;
      EncodeSnoc(s[..k], s[k]);
      assert s == s[..k] + [s[k]];
      if s[k] in ws {
        assert EncodeChar(s[k]) == [s[k]];
        assert Encode(s)[..|Encode(s)| - 1] == Encode(s[..k]);
        TrimEncode(ws, s[..k]);
      }
    }
  }

  /** Position of the first '=' that no escape covers, or |s|. */
  function KeyEnd(s: string): (i: nat)
    ensures i <= |s|
  {
    if s == "" || s[0] == '=' then 0
    else if s[0] == '\\' && |s| > 1 then 2 + KeyEnd(s[2..])
    else 1 + KeyEnd(s[1..])
  }

  lemma {:induction false} KeyEndOfLine(k: string, v: string)
    requires Escaped(k)
    ensures KeyEnd(k + "=" + v) == |k|
  {
    var s := k + "=" + v;
    if k != "" {
      var n := if k[0] == '\\' then 2 else 1;
      assert s[n..] == k[n..] + "=" + v;
      KeyEndOfLine(k[n..], v);
    }
  }

  lemma {:induction false} KeyEscaped(s: string)
    requires KeyEnd(s) < |s|
    ensures s[KeyEnd(s)] == '=' && Escaped(s[..KeyEnd(s)])
  {
    if s[0] != '=' {
      var n := if s[0] == '\\' && |s| > 1 then 2 else 1;
      KeyEscaped(s[n..]);
      assert s[..KeyEnd(s)][n..] == s[n..][..KeyEnd(s[n..])];
    }
  }

  // ---- the reader ----------------------------------------------------------------------

  /** A pair as it stands in a file that the setters wrote or that the reader accepted raw. */
  predicate RawPair(ws: LineEnds, p: Pair)
  {
    p.0 != "" && Escaped(p.0) && '\n' !in p.0 && '\n' !in p.1 && TrimEnd(ws, p.1) == p.1
  }

  /** One non-empty line: split at the first unescaped '='; no such '=' and an empty key are errors. */
  function ReadLine(line: string): Option<Pair>
  {
    var i := KeyEnd(line);
    if i == |line| || i == 0 then None else Some((line[..i], line[i + 1..]))
  }

  function ReadLines(ws: LineEnds, lines: seq<string>): Option<seq<Pair>>
  {
    if lines == [] then Some([])
    else
      var line := TrimEnd(ws, lines[0]);
      if line == "" then ReadLines(ws, lines[1..])
      else
        var p, rest := ReadLine(line), ReadLines(ws, lines[1..]);
        if p.Some? && rest.Some? then Some([p.value] + rest.value) else None
  }

  function DecodePairs(pairs: seq<Pair>): Option<seq<Pair>>
  {
    if pairs == [] then Some([])
    else
      var k, v, rest := Decode(pairs[0].0), Decode(pairs[0].1), DecodePairs(pairs[1..]);
      if k.Some? && v.Some? && rest.Some? then Some([(k.value, v.value)] + rest.value) else None
  }

  /** read_istream_ordered_kv_str without and with decoding; None is the parse error. */
  function ReadRaw(ws: LineEnds, text: string): Option<seq<Pair>>
  {
    ReadLines(ws, Split(text))
  }

  function ReadDecoded(ws: LineEnds, text: string): Option<seq<Pair>>
  {
    match ReadRaw(ws, text)
    case None => None
    case Some(pairs) => DecodePairs(pairs)
  }

  /** read_istream_kv_str collects the pairs in a map; a repeated key keeps its last value. */
  function ToMap(pairs: seq<Pair>): map<string, string>
  {
    if pairs == [] then map[] else map[pairs[0].0 := pairs[0].1] + ToMap(pairs[1..])
  }

  function RawMap(ws: LineEnds, text: string): Option<map<string, string>>
  {
    match ReadRaw(ws, text) case None => None case Some(pairs) => Some(ToMap(pairs))
  }

  function DecodedMap(ws: LineEnds, text: string): Option<map<string, string>>
  {
    match ReadDecoded(ws, text) case None => None case Some(pairs) => Some(ToMap(pairs))
  }

  /** What the writers put out for a sequence of raw pairs. */
  function Render(pairs: seq<Pair>): string
  {
    if pairs == [] then "" else pairs[0].0 + "=" + pairs[0].1 + "\n" + Render(pairs[1..])
  }

  function EncodePairs(pairs: seq<Pair>): (r: seq<Pair>)
    ensures |r| == |pairs|
    ensures forall i :: 0 <= i < |r| ==> r[i] == (Encode(pairs[i].0), Encode(pairs[i].1))
  {
    if pairs == [] then [] else [(Encode(pairs[0].0), Encode(pairs[0].1))] + EncodePairs(pairs[1..])
  }

  /** A name has the value of the last pair with that name. */
  lemma {:induction false} ToMapLast(pairs: seq<Pair>, i: nat)
    requires i < |pairs| && forall j :: i < j < |pairs| ==> pairs[j].0 != pairs[i].0
    ensures pairs[i].0 in ToMap(pairs) && ToMap(pairs)[pairs[i].0] == pairs[i].1
  {
    if i > 0 {
      ToMapLast(pairs[1..], i - 1);
    } else {
      NotInMap(pairs[1..], pairs[0].0);
    }
  }

  lemma {:induction false} NotInMap(pairs: seq<Pair>, k: string)
    requires forall j :: 0 <= j < |pairs| ==> pairs[j].0 != k
    ensures k !in ToMap(pairs)
  {
    if pairs != [] { NotInMap(pairs[1..], k); }
  }

  // ---- reading any text ----------------------------------------------------------------

  function PrependPair(p: Pair, r: Option<seq<Pair>>): Option<seq<Pair>>
  {
    match r case None => None case Some(pairs) => Some([p] + pairs)
  }

  /** A line of any text: blank lines are skipped, k=v with a non-empty k in which every '=' is escaped
      gives that pair, even if v has a plain '='. */
  lemma ReadTextLine(ws: LineEnds, line: string, k: string, v: string, rest: string)
    requires '\n' !in line
    ensures TrimEnd(ws, line) == "" ==> ReadRaw(ws, line + "\n" + rest) == ReadRaw(ws, rest)
    ensures TrimEnd(ws, line) == k + "=" + v && Escaped(k) && k != "" ==>
              ReadRaw(ws, line + "\n" + rest) == PrependPair((k, v), ReadRaw(ws, rest))
  {
    SplitAtNewline(line, rest);
    assert ([line] + Split(rest))[1..] == Split(rest);
    if Escaped(k) {
      KeyEndOfLine(k, v);
      var s := k + "=" + v;
      assert s[..|k|] == k && s[|k| + 1..] == v;
    }
  }

  /** Any other line makes the whole text unreadable. */
  lemma ReadBadLine(ws: LineEnds, line: string, rest: string)
    requires '\n' !in line && TrimEnd(ws, line) != ""
    requires forall k, v :: TrimEnd(ws, line) == k + "=" + v && Escaped(k) ==> k == ""
    ensures ReadRaw(ws, line + "\n" + rest) == None
  {
    SplitAtNewline(line, rest);
    var s := TrimEnd(ws, line);
    var i := KeyEnd(s);
    if i < |s| {
      KeyEscaped(s);
      assert s == s[..i] + "=" + s[i + 1..];
    }
  }

  /** The last line may end with or without a line end. */
  lemma ReadLastLine(ws: LineEnds, text: string)
    ensures ReadRaw(ws, text + "\n") == ReadRaw(ws, text) && ReadRaw(ws, "") == Some([])
  {
    SplitLastNewline(text);
    ReadLinesBlank(ws, Split(text));
    SplitOneLine("");
    ReadLinesBlank(ws, []);
    assert [] + [""] == [""];
    assert ReadLines(ws, []) == Some([]);
  }

  lemma SplitLastNewline(text: string)
    ensures Split(text + "\n") == Split(text) + [""]
  {
    var lines := Split(text);
    JoinSplit(text);
    JoinSnoc(lines);
    SplitNewlineFree(text);
    SplitJoin(lines + [""]);
  }

  lemma {:induction false} JoinSnoc(lines: seq<string>)
    requires lines != []
    ensures Join(lines + [""]) == Join(lines) + "\n"
  {
    if |lines| > 1 {
      JoinSnoc(lines[1..]);
      assert (lines + [""])[1..] == lines[1..] + [""];
    } else {
      assert (lines + [""])[1..] == [""];
      assert lines[0] + "\n" + "" == lines[0] + "\n";
    }
  }

  lemma {:induction false} ReadLinesBlank(ws: LineEnds, lines: seq<string>)
    ensures ReadLines(ws, lines + [""]) == ReadLines(ws, lines)
  {
    if lines == [] {
      assert (lines + [""])[1..] == [];
    } else {
      assert (lines + [""])[1..] == lines[1..] + [""];
      ReadLinesBlank(ws, lines[1..]);
    }
  }

  /** The lines the writers put out. */
  function RawLines(pairs: seq<Pair>): (lines: seq<string>)
    ensures |lines| == |pairs|
    ensures forall i :: 0 <= i < |pairs| ==> lines[i] == pairs[i].0 + "=" + pairs[i].1
  {
    if pairs == [] then [] else [pairs[0].0 + "=" + pairs[0].1] + RawLines(pairs[1..])
  }

  lemma {:induction false} RenderLines(pairs: seq<Pair>)
    requires forall p :: p in pairs ==> '\n' !in p.0 && '\n' !in p.1
    ensures Split(Render(pairs)) == RawLines(pairs) + [""]
  {
    if pairs == [] {
      SplitOneLine("");
    } else {
      var line, rest := pairs[0].0 + "=" + pairs[0].1, Render(pairs[1..]);
      assert pairs[0] in pairs && Render(pairs) == line + "\n" + rest;
      SplitAtNewline(line, rest);
      RenderLines(pairs[1..]);
    }
  }

  // ---- reading what was written --------------------------------------------------------

  function TrimValues(ws: LineEnds, pairs: seq<Pair>): (r: seq<Pair>)
    ensures |r| == |pairs|
    ensures forall i :: 0 <= i < |r| ==> r[i] == (pairs[i].0, TrimEnd(ws, pairs[i].1))
  {
    if pairs == [] then [] else [(pairs[0].0, TrimEnd(ws, pairs[0].1))] + TrimValues(ws, pairs[1..])
  }

  predicate Writable(p: Pair)
  {
    p.0 != "" && Escaped(p.0) && '\n' !in p.0 && '\n' !in p.1
  }

  lemma ReadWrittenLine(ws: LineEnds, p: Pair)
    requires Writable(p)
    ensures var line := TrimEnd(ws, p.0 + "=" + p.1);
            line != "" && ReadLine(line) == Some((p.0, TrimEnd(ws, p.1)))
  {
    var k, v := p.0, TrimEnd(ws, p.1);
    TrimEndBehind(ws, k + "=", p.1);
    KeyEndOfLine(k, v);
    var line := k + "=" + v;
    assert line[..|k|] == k && line[|k| + 1..] == v;
  }

  /** The reader gives back the written pairs, in order, except for blanks trimmed off values. */
  lemma {:induction false} ReadRender(ws: LineEnds, pairs: seq<Pair>)
    requires forall p :: p in pairs ==> Writable(p)
    ensures ReadRaw(ws, Render(pairs)) == Some(TrimValues(ws, pairs))
  {
    if pairs == [] {
      SplitOneLine("");
      assert [""][1..] == [] && ReadLines(ws, [""]) == Some([]);
      assert TrimValues(ws, pairs) == [];
    } else {
      var line, rest := pairs[0].0 + "=" + pairs[0].1, Render(pairs[1..]);
      assert pairs[0] in pairs && Render(pairs) == line + "\n" + rest;
      SplitAtNewline(line, rest);
      ReadWrittenLine(ws, pairs[0]);
      ReadRender(ws, pairs[1..]);
      assert ([line] + Split(rest))[1..] == Split(rest);
    }
  }

  /** A name that is empty makes the line, and so the whole file, unreadable. */
  lemma {:induction false} EmptyNameUnreadable(ws: LineEnds, pairs: seq<Pair>, v: string, more: seq<Pair>)
    requires forall p :: p in pairs ==> Writable(p)
    requires '\n' !in v
    ensures ReadRaw(ws, Render(pairs + [("", v)] + more)) == None
    decreases |pairs|
  {
    var all := pairs + [("", v)] + more;
    var line, rest := all[0].0 + "=" + all[0].1, Render(all[1..]);
    assert all[0] in pairs + [("", v)] && Render(all) == line + "\n" + rest;
    SplitAtNewline(line, rest);
    assert ([line] + Split(rest))[1..] == Split(rest);
    if pairs == [] {
      assert line == "=" + v;
      TrimEndBehind(ws, "=", v);
    } else {
      ReadWrittenLine(ws, pairs[0]);
      assert all[1..] == pairs[1..] + [("", v)] + more;
      EmptyNameUnreadable(ws, pairs[1..], v, more);
    }
  }

  /** Whatever the reader accepts raw can be written back unchanged. */
  lemma {:induction false} ReadLinesRaw(ws: LineEnds, lines: seq<string>)
    requires forall l :: l in lines ==> '\n' !in l
    requires ReadLines(ws, lines).Some?
    ensures forall p :: p in ReadLines(ws, lines).value ==> RawPair(ws, p)
  {
    if lines != [] {
      ReadLinesRaw(ws, lines[1..]);
      var line := TrimEnd(ws, lines[0]);
      TrimEndIdempotent(ws, lines[0]);
      if line != "" {
        var i := KeyEnd(line);
        KeyEscaped(line);
        var k, v := line[..i], line[i + 1..];
        assert line == k + "=" + v;
        TrimEndBehind(ws, k + "=", v);
        assert line == k + "=" + TrimEnd(ws, v) && v == line[|k| + 1..] == TrimEnd(ws, v);
        assert forall c :: c in k || c in v ==> c in line;
        assert forall c :: c in line ==> c in lines[0];
        assert RawPair(ws, (k, v));
      }
    }
  }

  lemma ReadRawPairs(ws: LineEnds, text: string)
    requires ReadRaw(ws, text).Some?
    ensures forall p :: p in ReadRaw(ws, text).value ==> RawPair(ws, p)
  {
    SplitNewlineFree(text);
    ReadLinesRaw(ws, Split(text));
  }
}
