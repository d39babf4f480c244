/** Parameters on their way from set_param, through startjob and the build directory, to
    get_param in the child build. */
module ParamTransport {
  import opened Text
  import opened Errors
  import opened ParamCodec
  import opened SessionStore

  /** Replace the value of each pair whose name the map knows. */
  function Override(params: seq<Pair>, values: map<string, string>): (r: seq<Pair>)
    ensures |r| == |params|
    ensures forall i :: 0 <= i < |r| ==>
              r[i] == (params[i].0, if params[i].0 in values then values[params[i].0] else params[i].1)
  {
    if params == [] then []
    else
      var (name, value) := params[0];
      [(name, if name in values then values[name] else value)] + Override(params[1..], values)
  }

  /** The loop that both prepare_params and startjob run over the declared parameters. */
  method OverrideLoop(params: seq<Pair>, values: map<string, string>) returns (r: seq<Pair>)
    ensures r == Override(params, values)
  {
    r := params;
    ghost var goal := Override(params, values);
    var i := 0;
    while i < |r|
      invariant i <= |r| == |params|
      invariant forall j :: 0 <= j < |r| ==> r[j] == if j < i then goal[j] else params[j]
    {
      if r[i].0 in values {
        r := r[i := (r[i].0, values[r[i].0])];
      }
      i := i + 1;
    }
    assert r == goal;
  }

  lemma OverrideNothing(params: seq<Pair>)
    ensures Override(params, map[]) == params
  {
    assert forall i :: 0 <= i < |params| ==> params[i] == (params[i].0, params[i].1);
  }

  /** prepare_params: a session file that cannot be read leaves the parameters as they are. */
  method PrepareParams(params: seq<Pair>, ws: LineEnds, prm: File, f: Faults) returns (r: seq<Pair>, ec: Error)
    ensures match Loaded(ws, prm, f)
            case None => r == params && ec == CantReadSessionValues
            case Some(m) => r == Override(params, m) && ec == if f.statFails then SystemError else Ok
    ensures f.statFails ==> r == params && ec == SystemError
    ensures !f.statFails && prm == None ==> r == params && ec == Ok
    ensures !f.statFails && prm.Some? && (f.openReadFails || DecodedMap(ws, prm.value) == None) ==>
              r == params && ec == CantReadSessionValues
    ensures !f.statFails && prm.Some? && !f.openReadFails && DecodedMap(ws, prm.value).Some? ==>
              r == Override(params, DecodedMap(ws, prm.value).value) && ec == Ok
  {
    var values: map<string, string> := map[];
    OverrideNothing(params);
    ec := if f.statFails then SystemError else Ok;
    if !f.statFails && prm.Some? {
      if f.openReadFails {
        return params, CantReadSessionValues;
      }
      match DecodedMap(ws, prm.value)
      case None => return params, CantReadSessionValues;
      case Some(m) => values := m;
    }
    r := OverrideLoop(params, values);
  }

  /** The name/value arguments of --params; a name without a value gets the empty one. */
  function ArgPairs(args: seq<string>): seq<Pair>
  {
    if args == [] then [] else if |args| == 1 then [(args[0], "")] else [(args[0], args[1])] + ArgPairs(args[2..])
  }

  lemma {:induction false} ArgPairsSnoc(args: seq<string>, i: nat)
    requires i < |args| && i % 2 == 0
    ensures i + 1 < |args| ==> ArgPairs(args[..i + 2]) == ArgPairs(args[..i]) + [(args[i], args[i + 1])]
    ensures i + 1 == |args| ==> ArgPairs(args) == ArgPairs(args[..i]) + [(args[i], "")]
  {
    if i > 0 {
      ArgPairsSnoc(args[2..], i - 2);
      assert args[..i][2..] == args[2..][..i - 2];
      if i + 1 < |args| { assert args[..i + 2][2..] == args[2..][..i]; }
    } else {
      if |args| > 1 { assert args[..2][2..] == []; }
    }
  }

  lemma {:induction false} ToMapSnoc(pairs: seq<Pair>, p: Pair)
    ensures ToMap(pairs + [p]) == ToMap(pairs)[p.0 := p.1]
  {
    if pairs == [] {
      assert (pairs + [p])[1..] == [];
    } else {
      ToMapSnoc(pairs[1..], p);
      assert (pairs + [p])[1..] == pairs[1..] + [p] && (pairs + [p])[0] == pairs[0];
    }
  }

  /** The argument at i is the last of the names with that name. */
  predicate LastNamed(args: seq<string>, i: nat, name: string)
  {
    i < |args| && i % 2 == 0 && args[i] == name && forall j :: i < j < |args| && j % 2 == 0 ==> args[j] != name
  }

  lemma {:induction false} LastNamedExists(args: seq<string>, i: nat) returns (k: nat)
    requires i < |args| && i % 2 == 0
    ensures LastNamed(args, k, args[i])
    decreases |args| - i
  {
    if j :| i < j < |args| && j % 2 == 0 && args[j] == args[i] {
      k := LastNamedExists(args, j);
    } else {
      k := i;
    }
  }

  /** The name at position i and its value are one of the pairs, and the last one with that name if no
      later argument is that name. */
  lemma {:induction false} ArgPairAt(args: seq<string>, i: nat)
    requires i < |args| && i % 2 == 0 && LastNamed(args, i, args[i])
    ensures args[i] in ToMap(ArgPairs(args))
    ensures ToMap(ArgPairs(args))[args[i]] == if i + 1 < |args| then args[i + 1] else ""
  {
    if |args| > 1 {
      if i > 0 {
        assert forall j :: 0 <= j < |args[2..]| && j % 2 == 0 ==> args[2..][j] == args[j + 2];
        ArgPairAt(args[2..], i - 2);
      } else {
        NoArgPair(args[2..], args[0]);
      }
    }
  }

  lemma {:induction false} NoArgPair(args: seq<string>, name: string)
    requires forall j :: 0 <= j < |args| && j % 2 == 0 ==> args[j] != name
    ensures name !in ToMap(ArgPairs(args))
  {
    if |args| > 1 { NoArgPair(args[2..], name); }
  }

  lemma ArgPairsPointwise(args: seq<string>)
    ensures forall name :: name in ToMap(ArgPairs(args)) ==> exists i: nat :: LastNamed(args, i, name)
    ensures forall i: nat, name :: LastNamed(args, i, name) ==>
              && name in ToMap(ArgPairs(args))
              && ToMap(ArgPairs(args))[name] == if i + 1 < |args| then args[i + 1] else ""
  {
    forall name | name in ToMap(ArgPairs(args)) ensures exists i: nat :: LastNamed(args, i, name) {
      if forall j :: 0 <= j < |args| && j % 2 == 0 ==> args[j] != name {
        NoArgPair(args, name);
      } else {
        var i :| 0 <= i < |args| && i % 2 == 0 && args[i] == name;
        var k := LastNamedExists(args, i);
      }
    }
    forall i: nat, name | LastNamed(args, i, name)
      ensures name in ToMap(ArgPairs(args))
      ensures ToMap(ArgPairs(args))[name] == if i + 1 < |args| then args[i + 1] else ""
    {
      ArgPairAt(args, i);
    }
  }

  /** prepared_params: later arguments win. */
  method PreparedParams(args: seq<string>) returns (params: map<string, string>)
    ensures params == ToMap(ArgPairs(args))
    ensures forall name :: name in params ==> exists i: nat :: LastNamed(args, i, name)
    ensures forall i: nat, name :: LastNamed(args, i, name) ==>
              name in params && params[name] == if i + 1 < |args| then args[i + 1] else ""
  {
    ArgPairsPointwise(args);
    params := map[];
    var i := 0;
    while i < |args|
      invariant i % 2 == 0 && i <= |args| + 1
      invariant params == ToMap(ArgPairs(args[..if i <= |args| then i else |args|]))
    {
      ArgPairsSnoc(args, i);
      if i + 1 < |args| {
        ToMapSnoc(ArgPairs(args[..i]), (args[i], args[i + 1]));
        params := params[args[i] := args[i + 1]];
      } else {
        ToMapSnoc(ArgPairs(args[..i]), (args[i], ""));
        assert args[..i + 1] == args;
        params := params[args[i] := ""];
      }
      i := i + 2;
    }
    assert args[..|args|] == args;
  }

  /** The parameters of job.params in the build directory, as prepare_build writes them. */
  method WriteParams(params: seq<Pair>) returns (text: string)
    ensures text == Render(EncodePairs(params))
  {
    text := "";
    var i := 0;
    ghost var pairs := EncodePairs(params);
    while i < |params|
      invariant i <= |params| && text == Render(pairs[..i])
    {
      RenderSnoc(pairs, i);
      text := text + Encode(params[i].0) + "=" + Encode(params[i].1) + "\n";
      i := i + 1;
    }
    assert pairs[..i] == pairs;
  }

  /** get_param: the file is the job.params of the build that the environment names. */
  method GetParam(ws: LineEnds, jobParams: File, name: string, f: Faults) returns (value: Option<string>, ec: Error)
    ensures match Loaded(ws, jobParams, f)
            case None => value == None && ec == CantReadJobParams
            case Some(m) => value == Some(Lookup(m, name)) && ec == if f.statFails then SystemError else Ok
    ensures f.statFails ==> value == Some("") && ec == SystemError
    ensures !f.statFails && jobParams == None ==> value == Some("") && ec == Ok
    ensures !f.statFails && jobParams.Some? && (f.openReadFails || DecodedMap(ws, jobParams.value) == None) ==>
              value == None && ec == CantReadJobParams
    ensures !f.statFails && jobParams.Some? && !f.openReadFails && DecodedMap(ws, jobParams.value).Some? ==>
              && ec == Ok
              && var m := DecodedMap(ws, jobParams.value).value; value == Some(if name in m then m[name] else "")
  {
    var values: map<string, string> := map[];
    if !f.statFails && jobParams.Some? {
      if f.openReadFails {
        return None, CantReadJobParams;
      }
      match DecodedMap(ws, jobParams.value)
      case None => return None, CantReadJobParams;
      case Some(m) => values := m;
    }
    return Some(Lookup(values, name)), if f.statFails then SystemError else Ok;
  }

  // ---- what survives the text files ----------------------------------------------------

  /** A parameter that a params file can carry without change. */
  predicate Clean(ws: LineEnds, p: Pair)
  {
    p.0 != "" && TrimEnd(ws, p.1) == p.1
  }

  /** A decoded text ends in a blank only if its encoded form does. */
  lemma {:induction false} DecodeLast(ws: LineEnds, s: string)
    requires Decode(s).Some? && TrimEnd(ws, s) == s
    ensures TrimEnd(ws, Decode(s).value) == Decode(s).value
    ensures s != "" ==> Decode(s).value != ""
  {
    if s != "" {
      var k := if s[0] == '\\' then 2 else 1;
      var d := Decode(s).value;
      assert d == [d[0]] + Decode(s[k..]).value;
      if |s| > k {
        TrimLast(ws, s);
        TrimLast(ws, s[k..]);
        DecodeLast(ws, s[k..]);
        TrimLast(ws, d[1..]);
      }
      TrimLast(ws, d);
    }
  }

  lemma TrimLast(ws: LineEnds, s: string)
    ensures TrimEnd(ws, s) == s <==> s == "" || s[|s| - 1] !in ws
  {
    if s != "" && s[|s| - 1] in ws { TrimEndIdempotent(ws, s[..|s| - 1]); }
  }

  lemma {:induction false} DecodePairsClean(ws: LineEnds, pairs: seq<Pair>)
    requires DecodePairs(pairs).Some? && forall p :: p in pairs ==> RawPair(ws, p)
    ensures forall p :: p in DecodePairs(pairs).value ==> Clean(ws, p)
  {
    if pairs != [] {
      assert RawPair(ws, pairs[0]);
      EncodeDecode(pairs[0].0);
      DecodeLast(ws, pairs[0].1);
      DecodePairsClean(ws, pairs[1..]);
    }
  }

  /** Everything read from a params file is clean, so reading and writing it again is safe. */
  lemma ReadIsClean(ws: LineEnds, text: string)
    requires ReadDecoded(ws, text).Some?
    ensures forall p :: p in ReadDecoded(ws, text).value ==> Clean(ws, p)
  {
    ReadRawPairs(ws, text);
    DecodePairsClean(ws, ReadRaw(ws, text).value);
  }

  lemma {:induction false} DecodeEncodedPairs(pairs: seq<Pair>)
    ensures DecodePairs(EncodePairs(pairs)) == Some(pairs)
  {
    if pairs != [] {
      DecodeEncode(pairs[0].0);
      DecodeEncode(pairs[0].1);
      DecodeEncodedPairs(pairs[1..]);
      assert EncodePairs(pairs)[1..] == EncodePairs(pairs[1..]);
      assert [(pairs[0].0, pairs[0].1)] + pairs[1..] == pairs;
    }
  }

  /** Clean parameters come back from the build directory name by name, in order. */
  lemma WriteReadParams(ws: LineEnds, params: seq<Pair>)
    requires forall p :: p in params ==> Clean(ws, p)
    ensures ReadDecoded(ws, Render(EncodePairs(params))) == Some(params)
  {
    var pairs := EncodePairs(params);
    forall i | 0 <= i < |pairs|
      ensures Writable(pairs[i]) && TrimEnd(ws, pairs[i].1) == pairs[i].1
    {
      assert Clean(ws, params[i]);
      EncodeEscaped(params[i].0);
      EncodeEscaped(params[i].1);
      TrimEncode(ws, params[i].1);
    }
    ReadRender(ws, pairs);
    assert TrimValues(ws, pairs) == pairs;
    DecodeEncodedPairs(params);
  }

  /** Exactly the clean parameter lists survive the trip through job.params. */
  lemma SurvivesExactly(ws: LineEnds, params: seq<Pair>)
    ensures ReadDecoded(ws, Render(EncodePairs(params))) == Some(params)
       <==> forall p :: p in params ==> Clean(ws, p)
  {
    if ReadDecoded(ws, Render(EncodePairs(params))) == Some(params) {
      ReadIsClean(ws, Render(EncodePairs(params)));
    }
    if forall p :: p in params ==> Clean(ws, p) {
      WriteReadParams(ws, params);
    }
  }

  lemma {:induction false} OverrideLookup(params: seq<Pair>, values: map<string, string>, name: string)
    ensures name in ToMap(Override(params, values)) <==> name in ToMap(params)
    ensures name in ToMap(params) ==>
              ToMap(Override(params, values))[name] == if name in values then values[name] else ToMap(params)[name]
  {
    if params != [] {
      OverrideLookup(params[1..], values, name);
      assert Override(params, values)[1..] == Override(params[1..], values);
    }
  }

  /** What the getters see of any readable file has values without trailing blanks. */
  lemma ViewClean(ws: LineEnds, file: File, name: string)
    requires View(ws, file).Some? && name in View(ws, file).value
    ensures TrimEnd(ws, View(ws, file).value[name]) == View(ws, file).value[name]
  {
    ReadIsClean(ws, file.value);
    var pairs := ReadDecoded(ws, file.value).value;
    ToMapPair(pairs, name);
    assert Clean(ws, (name, ToMap(pairs)[name]));
  }

  /** Clean parameters overridden from a readable file are clean. */
  lemma OverrideClean(ws: LineEnds, params: seq<Pair>, file: File)
    requires View(ws, file).Some? && forall p :: p in params ==> Clean(ws, p)
    ensures forall p :: p in Override(params, View(ws, file).value) ==> Clean(ws, p)
  {
    var values := View(ws, file).value;
    forall p | p in Override(params, values)
      ensures Clean(ws, p)
    {
      var i :| 0 <= i < |params| && p == Override(params, values)[i];
      assert Clean(ws, params[i]);
      if p.0 in values { ViewClean(ws, file, p.0); }
    }
  }

  /** End to end: from any readable session parameter file, after any sequence of set_param calls, a child
      build reads, for each declared name, the last value set for it, or else the one that was in the
      file, or else the job's default, and "" for any other name; the build directory holds the declared
      names in their order and nothing else. */
  lemma ParamsReachChild(ws: LineEnds, jobParams: string, file: File, sets: seq<Pair>, name: string)
    requires ReadDecoded(ws, jobParams).Some? && View(ws, file).Some?
    requires forall s :: s in sets ==> s.0 != ""
    ensures var declared := ReadDecoded(ws, jobParams).value;
            var prm := View(ws, SetAll(ws, file, sets));
            && prm == Some(View(ws, file).value + ToMap(TrimValues(ws, sets)))
            && var child := Render(EncodePairs(Override(declared, prm.value)));
            && ReadDecoded(ws, child) == Some(Override(declared, prm.value))
            && GetFile(ws, Some(child), name) == Some(
                 if name !in ToMap(declared) then ""
                 else if name in prm.value then prm.value[name]
                 else ToMap(declared)[name])
  {
    var declared := ReadDecoded(ws, jobParams).value;
    SetsRefineMap(ws, file, sets);
    ReadIsClean(ws, jobParams);
    var prm := View(ws, SetAll(ws, file, sets)).value;
    OverrideClean(ws, declared, SetAll(ws, file, sets));
    WriteReadParams(ws, Override(declared, prm));
    OverrideLookup(declared, prm, name);
  }

  // ---- startjob ------------------------------------------------------------------------

  /** The answers typed for the parameters: an empty line keeps the default, any other line is
      decoded, and one that does not decode ends startjob. */
  function Prompted(params: seq<Pair>, answers: seq<string>): Option<seq<Pair>>
  {
    if params == [] then Some([])
    else
      var answer := if answers == [] then "" else answers[0];
      var value := if answer == "" then Some(params[0].1) else Decode(answer);
      var rest := Prompted(params[1..], if answers == [] then [] else answers[1..]);
      if value.Some? && rest.Some? then Some([(params[0].0, value.value)] + rest.value) else None
  }

  /** The line typed for parameter i; after the end of input it is empty. */
  function Answer(answers: seq<string>, i: nat): string { if i < |answers| then answers[i] else "" }

  /** The answer for parameter i is empty or can be decoded. */
  predicate Acceptable(answers: seq<string>, i: nat) { Answer(answers, i) == "" || Decode(Answer(answers, i)).Some? }

  /** Position by position: an unacceptable answer is the end ... */
  lemma {:induction false} PromptedWhen(params: seq<Pair>, answers: seq<string>)
    ensures Prompted(params, answers).Some? <==> forall i :: 0 <= i < |params| ==> Acceptable(answers, i)
  {
    if params != [] {
      var rest := if answers == [] then [] else answers[1..];
      PromptedWhen(params[1..], rest);
      assert Answer(answers, 0) == if answers == [] then "" else answers[0];
      if forall i :: 0 <= i < |params| ==> Acceptable(answers, i) {
        forall i | 0 <= i < |params[1..]| ensures Acceptable(rest, i) { assert Acceptable(answers, i + 1); }
      }
      if Acceptable(answers, 0) && forall i :: 0 <= i < |params[1..]| ==> Acceptable(rest, i) {
        forall i | 0 <= i < |params| ensures Acceptable(answers, i) { assert i > 0 ==> Acceptable(rest, i - 1); }
      }
    }
  }

  /** ... an empty one keeps the default, and any other is decoded. */
  lemma {:induction false} PromptedAt(params: seq<Pair>, answers: seq<string>, i: nat)
    requires Prompted(params, answers).Some? && i < |params|
    ensures var r := Prompted(params, answers).value;
            && |r| == |params| && r[i].0 == params[i].0
            && (Answer(answers, i) == "" ==> r[i].1 == params[i].1)
            && (Answer(answers, i) != "" ==> Decode(Answer(answers, i)) == Some(r[i].1))
  {
    var rest := if answers == [] then [] else answers[1..];
    PromptedNames(params, answers);
    if i > 0 {
      PromptedAt(params[1..], rest, i - 1);
      assert Answer(rest, i - 1) == Answer(answers, i);
    }
  }

  /** startjob asking for each value in turn. */
  method PromptParams(params: seq<Pair>, answers: seq<string>) returns (r: Option<seq<Pair>>)
    ensures r == Prompted(params, answers)
    ensures r.Some? <==> forall i :: 0 <= i < |params| ==> Acceptable(answers, i)
    ensures r.Some? ==> |r.value| == |params| && forall i :: 0 <= i < |params| ==>
              && r.value[i].0 == params[i].0
              && (Answer(answers, i) == "" ==> r.value[i].1 == params[i].1)
              && (Answer(answers, i) != "" ==> Decode(Answer(answers, i)) == Some(r.value[i].1))
  {
    PromptedWhen(params, answers);
    if Prompted(params, answers).Some? {
      PromptedNames(params, answers);
      forall i | 0 <= i < |params|
        ensures Answer(answers, i) == "" ==> Prompted(params, answers).value[i].1 == params[i].1
        ensures Answer(answers, i) != "" ==> Decode(Answer(answers, i)) == Some(Prompted(params, answers).value[i].1)
      {
        PromptedAt(params, answers, i);
      }
    }
    var out, i := params, 0;
    assert params[0..] == params && Drop(answers, 0) == answers;
    assert Prompted(params, answers).Some? ==> [] + Prompted(params, answers).value == Prompted(params, answers).value;
    while i < |params|
      invariant i <= |params| == |out| && out[i..] == params[i..]
      invariant Prompted(params, answers) == PrependAll(out[..i], Prompted(params[i..], Drop(answers, i)))
    {
      var answer := if i < |answers| then answers[i] else "";
      assert params[i..][1..] == params[i + 1..] && out[i] == params[i..][0] && out[i + 1..] == params[i + 1..];
      DropStep(answers, i);
      if answer != "" {
        match Decode(answer)
        case None => return None;
        case Some(value) => out := out[i := (out[i].0, value)];
      }
      PrependAllStep(out, i, Prompted(params[i + 1..], Drop(answers, i + 1)));
      i := i + 1;
    }
    assert out[..i] == out && out + [] == out && params[i..] == [];
    return Some(out);
  }

  lemma {:induction false} PromptedNames(params: seq<Pair>, answers: seq<string>)
    ensures var r := Prompted(params, answers);
            r.Some? ==> |r.value| == |params| && forall i :: 0 <= i < |params| ==> r.value[i].0 == params[i].0
  {
    if params != [] { PromptedNames(params[1..], if answers == [] then [] else answers[1..]); }
  }

  /** The values startjob goes on with: none are asked for when none are declared; --params come first,
      then a prompt if startjob opened the session itself, then the parameters of the session. */
  function Chosen(params: seq<Pair>, openedByMe: bool, args: Option<seq<string>>, answers: seq<string>,
                  ws: LineEnds, prm: File, f: Faults): Option<seq<Pair>>
  {
    if args.Some? then Some(Override(params, ToMap(ArgPairs(args.value))))
    else if openedByMe then Prompted(params, answers)
    else if Loaded(ws, prm, f).Some? then Some(Override(params, Loaded(ws, prm, f).value))
    else Some(params)
  }

  /** What startjob in a session takes from any readable parameter file after any sequence of set_param
      calls: the overrides exactly if no call set an empty name, and otherwise, without notice, nothing. */
  lemma ChosenAfterSets(ws: LineEnds, params: seq<Pair>, answers: seq<string>, file: File, sets: seq<Pair>)
    requires View(ws, file).Some?
    ensures Chosen(params, false, None, answers, ws, SetAll(ws, file, sets), NO_FAULTS) ==
            Some(if forall s :: s in sets ==> s.0 != ""
                 then Override(params, View(ws, file).value + ToMap(TrimValues(ws, sets))) else params)
  {
    ReadableExactly(ws, file, sets);
    if forall s :: s in sets ==> s.0 != "" { SetsRefineMap(ws, file, sets); }
  }

  /** Where startjob takes the values of the declared parameters from; an error of prepare_params
      is not looked at before prepare_build, whose first system call clears it. */
  method ChooseParams(params: seq<Pair>, openedByMe: bool, args: Option<seq<string>>, answers: seq<string>,
                      ws: LineEnds, prm: File, f: Faults)
    returns (r: Option<seq<Pair>>)
    ensures r == Chosen(params, openedByMe, args, answers, ws, prm, f)
    ensures params == [] ==> r == Some([])
    ensures args.Some? ==> r.Some? && |r.value| == |params| && forall i :: 0 <= i < |params| ==>
              && ((forall k: nat :: !LastNamed(args.value, k, params[i].0)) ==> r.value[i].1 == params[i].1)
              && (forall k: nat :: LastNamed(args.value, k, params[i].0) ==>
                    r.value[i].1 == if k + 1 < |args.value| then args.value[k + 1] else "")
    ensures args == None && openedByMe ==>
              (r.Some? <==> forall i :: 0 <= i < |params| ==> Acceptable(answers, i))
    ensures args == None && openedByMe && r.Some? ==> |r.value| == |params| && forall i :: 0 <= i < |params| ==>
              && (Answer(answers, i) == "" ==> r.value[i].1 == params[i].1)
              && (Answer(answers, i) != "" ==> Decode(Answer(answers, i)) == Some(r.value[i].1))
    ensures args == None && !openedByMe && (f.statFails || prm == None || f.openReadFails
                                            || DecodedMap(ws, prm.value) == None) ==>
              r == Some(params)
    ensures args == None && !openedByMe && !f.statFails && prm.Some? && !f.openReadFails
            && DecodedMap(ws, prm.value).Some? ==>
              && r.Some? && |r.value| == |params|
              && var m := DecodedMap(ws, prm.value).value;
              forall i :: 0 <= i < |params| ==>
                r.value[i].1 == if params[i].0 in m then m[params[i].0] else params[i].1
    ensures r.Some? ==> |r.value| == |params| && forall i :: 0 <= i < |params| ==> r.value[i].0 == params[i].0
  {
    if params != [] && openedByMe && args == None {
      PromptedNames(params, answers);
      r := PromptParams(params, answers);
    } else if args.Some? {
      var values := PreparedParams(args.value);
      var out := OverrideLoop(params, values);
      r := Some(out);
    } else if params != [] {
      var out, ec := PrepareParams(params, ws, prm, f);
      r := Some(out);
    } else {
      r := Some(params);
    }
  }

  function Drop(answers: seq<string>, i: nat): seq<string> { if i <= |answers| then answers[i..] else [] }

  lemma DropStep(answers: seq<string>, i: nat)
    ensures var d := Drop(answers, i);
            && (d == [] <==> |answers| <= i)
            && (d != [] ==> d[0] == answers[i])
            && (if d == [] then [] else d[1..]) == Drop(answers, i + 1)
  {
  }

  function PrependAll(done: seq<Pair>, rest: Option<seq<Pair>>): Option<seq<Pair>>
  {
    match rest case None => None case Some(r) => Some(done + r)
  }

  lemma PrependAllStep(out: seq<Pair>, i: nat, rest: Option<seq<Pair>>)
    requires i < |out|
    ensures PrependAll(out[..i], PrependAll([out[i]], rest)) == PrependAll(out[..i + 1], rest)
  {
    if rest.Some? { assert out[..i] + ([out[i]] + rest.value) == out[..i + 1] + rest.value; }
  }
}
