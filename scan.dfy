/**
 * The exported parser (lib/optparse.js, lines 2-59): the single left-to-right
 * scan over the expanded tokens and the assembly of its result.
 *
 * The scan is specified in two parts. `Classify` says how the tokens are read:
 * which token matched which descriptor, which token was taken as a value,
 * which went to the unknowns, and where the scan stopped. `ApplyAll` says what
 * those events do to the options mapping, one after the other. `ScanTokens`
 * is the loop itself, doing both at once, and `Parse` is proved to agree with
 * them.
 */
module Scan {
  import opened Wrappers
  import opened FlagSchema
  import opened Tokens

  /** A value stored under a flag name in the options object. */
  datatype Value = True | Str(s: string) | Undefined | List(items: seq<Value>)

  /** The values of this domain that JavaScript treats as false. */
  predicate Falsy(v: Value)
  {
    v.Undefined? || v == Str("")
  }

  /** A token names a descriptor when it equals its short or its long form. */
  predicate Matches(d: Descriptor, token: string)
  {
    d.short == Text(token) || d.long == token
  }

  /** The first descriptor at or after `from` that the token names. */
  function FirstMatchFrom(flags: seq<Descriptor>, token: string, from: nat): (r: Option<nat>)
    requires from <= |flags|
    ensures r.Some? ==>
      from <= r.value < |flags| && Matches(flags[r.value], token) &&
      forall j :: from <= j < r.value ==> !Matches(flags[j], token)
    ensures r.None? ==> forall j :: from <= j < |flags| ==> !Matches(flags[j], token)
    decreases |flags| - from
  {
    if from == |flags| then None
    else if Matches(flags[from], token) then Some(from)
    else FirstMatchFrom(flags, token, from + 1)
  }

  /** The descriptor a token selects: linear search, first match wins. */
  function FirstMatch(flags: seq<Descriptor>, token: string): Option<nat>
  {
    FirstMatchFrom(flags, token, 0)
  }

  /** The inner search loop of the scan. */
  method FindFlag(flags: seq<Descriptor>, token: string) returns (found: Option<nat>)
    ensures found == FirstMatch(flags, token)
  {
    var k := 0;
    while k < |flags|
      invariant 0 <= k <= |flags|
      invariant forall j :: 0 <= j < k ==> !Matches(flags[j], token)
    {
      if flags[k].short == Text(token) || flags[k].long == token {
        return Some(k);
      }
      k := k + 1;
    }
    return None;
  }

  /** What the scan does with one token (or, for a flag with an argument, two). */
  datatype Event =
    | Switch(token: string, flag: nat)                 // flag without argument: records true
    | WithValue(token: string, flag: nat, value: string) // flag with argument: takes the next token
    | MissingValue(token: string, flag: nat)           // flag with argument at the end: records undefined
    | Unknown(token: string)                           // flag-shaped, matches nothing

  /** The descriptor index an event carries is one of the list's. */
  predicate Fits(flags: seq<Descriptor>, e: Event)
  {
    !e.Unknown? ==> e.flag < |flags|
  }

  predicate AllFit(flags: seq<Descriptor>, events: seq<Event>)
  {
    forall e :: e in events ==> Fits(flags, e)
  }

  /** Everything an event says about its token is what the scan checked of it. */
  predicate Explains(flags: seq<Descriptor>, e: Event)
  {
    e.token != "--" &&
    match e
    case Unknown(t) => FirstMatch(flags, t).None? && IsFlagShaped(t)
    case Switch(t, k) => FirstMatch(flags, t) == Some(k) && !Truthy(flags[k].arg)
    case WithValue(t, k, _) => FirstMatch(flags, t) == Some(k) && Truthy(flags[k].arg)
    case MissingValue(t, k) => FirstMatch(flags, t) == Some(k) && Truthy(flags[k].arg)
  }

  /** The events of a scan and the index it stopped at. */
  datatype Classified = Classified(events: seq<Event>, stop: nat)

  /** How many tokens a matched descriptor consumes: two when it takes an argument. */
  function Span(d: Descriptor): nat
  {
    if Truthy(d.arg) then 2 else 1
  }

  /** The event for token `i` matching descriptor `k`. */
  function Take(flags: seq<Descriptor>, args: seq<string>, i: nat, k: nat): (e: Event)
    requires i < |args| && k < |flags|
    ensures !e.Unknown? && e.flag == k && e.token == args[i]
    ensures e.Switch? <==> !Truthy(flags[k].arg)
    ensures e.WithValue? ==> i + 1 < |args| && e.value == args[i + 1]
    ensures e.MissingValue? ==> i == |args| - 1
  {
    if !Truthy(flags[k].arg) then Switch(args[i], k)
    else if i + 1 < |args| then WithValue(args[i], k, args[i + 1])
    else MissingValue(args[i], k)
  }

  /**
   * The scan from index `i` on. It stops at the end of the tokens, at a `--`
   * token, or at the first token that matches no descriptor and is not
   * flag-shaped; a flag with an argument takes the next token whatever it is.
   */
  function Classify(flags: seq<Descriptor>, args: seq<string>, i: nat): (c: Classified)
    requires i <= |args| + 1
    ensures i <= c.stop <= |args| + 1
    ensures AllFit(flags, c.events)
    decreases |args| + 1 - i
  {
    if i >= |args| || args[i] == "--" then Classified([], i)
    else
      match FirstMatch(flags, args[i])
      case Some(k) =>
        var rest := Classify(flags, args, i + Span(flags[k]));
        Classified([Take(flags, args, i, k)] + rest.events, rest.stop)
      case None =>
        if IsFlagShaped(args[i]) then
          var rest := Classify(flags, args, i + 1);
          Classified([Unknown(args[i])] + rest.events, rest.stop)
        else Classified([], i)
  }

  /** The value a flag event records. */
  function EventValue(e: Event): Value
    requires !e.Unknown?
  {
    match e
    case Switch(_, _) => True
    case WithValue(_, _, v) => Str(v)
    case MissingValue(_, _) => Undefined
  }

  /** The options mapping after a sequence of events, or the name whose push threw. */
  datatype Applied = Ok(options: map<string, Value>) | PushOnNonArray(name: string)

  /** What a multi flag appends to: the array already stored, or a fresh one. */
  function Prior(options: map<string, Value>, name: string): seq<Value>
  {
    if name in options && options[name].List? then options[name].items else []
  }

  /**
   * The members a plain object inherits from `Object.prototype`. Reading one
   * that the options object does not hold itself gives a function (or, for
   * `__proto__`, the prototype object): truthy, and not an array.
   */
  const InheritedNames: set<string> := {
    "constructor", "hasOwnProperty", "isPrototypeOf", "propertyIsEnumerable",
    "toLocaleString", "toString", "valueOf", "__proto__",
    "__defineGetter__", "__defineSetter__", "__lookupGetter__", "__lookupSetter__"}

  /** True iff `options[name]` holds something truthy even though `options` has no own key `name`. */
  predicate Inherited(name: string)
  {
    name in InheritedNames
  }

  /**
   * True iff a multi flag named `name` can push onto what `options` holds: an
   * own value that is falsy or an array, or no value at all, inherited or own.
   */
  predicate CanPush(options: map<string, Value>, name: string)
  {
    if name in options then Falsy(options[name]) || options[name].List? else !Inherited(name)
  }

  /**
   * True iff assigning to `options[name]` stores the value. Assigning to
   * `__proto__` when the object holds no own key of that name goes to the
   * prototype setter, which ignores a string, `true` or `undefined`.
   */
  predicate Assignable(options: map<string, Value>, name: string)
  {
    name != "__proto__" || name in options
  }

  /**
   * Recording one value for a descriptor: a multi flag appends it to the
   * array under its name (a missing or falsy value is first replaced by a new
   * array; any other non-array value, inherited ones included, makes the push
   * throw); any other flag overwrites, unless the assignment is ignored. No
   * other key changes.
   */
  function Record(options: map<string, Value>, d: Descriptor, v: Value): (r: Applied)
    ensures r.Ok? <==> !d.multi || CanPush(options, d.name)
    ensures r.Ok? && (d.multi || Assignable(options, d.name)) ==> r.options.Keys == options.Keys + {d.name}
    ensures r.Ok? && !d.multi && !Assignable(options, d.name) ==> r.options == options
    ensures r.Ok? ==> forall n :: n in options && n != d.name ==> r.options[n] == options[n]
    ensures r.Ok? && !d.multi && Assignable(options, d.name) ==> r.options[d.name] == v
    ensures r.Ok? && d.multi ==> r.options[d.name] == List(Prior(options, d.name) + [v])
    ensures r.PushOnNonArray? ==> r.name == d.name
  {
    if !d.multi then
      if Assignable(options, d.name) then Ok(options[d.name := v]) else Ok(options)
    else if d.name !in options then
      if Inherited(d.name) then PushOnNonArray(d.name)
      else
        assert Prior(options, d.name) + [v] == [v];
        Ok(options[d.name := List([v])])
    else if Falsy(options[d.name]) then
      assert Prior(options, d.name) + [v] == [v];
      Ok(options[d.name := List([v])])
    else if options[d.name].List? then Ok(options[d.name := List(options[d.name].items + [v])])
    else PushOnNonArray(d.name)
  }

  /** One event applied to the options: an unknown changes nothing, a flag event records its value. */
  function StepEvent(options: map<string, Value>, flags: seq<Descriptor>, e: Event): Applied
    requires Fits(flags, e)
  {
    if e.Unknown? then Ok(options) else Record(options, flags[e.flag], EventValue(e))
  }

  /** The events applied in order to the options, stopping at the first push that throws. */
  function ApplyAll(options: map<string, Value>, flags: seq<Descriptor>, events: seq<Event>): (r: Applied)
    requires AllFit(flags, events)
    ensures r.Ok? ==> options.Keys <= r.options.Keys
    ensures r.PushOnNonArray? ==>
      exists e :: e in events && !e.Unknown? && flags[e.flag].multi && flags[e.flag].name == r.name
    decreases |events|
  {
    if events == [] then Ok(options)
    else
      assert events[0] in events;
      match StepEvent(options, flags, events[0])
      case PushOnNonArray(name) => PushOnNonArray(name)
      case Ok(next) => ApplyAll(next, flags, events[1..])
  }

  /** The tokens of the unknown events, in order. */
  function UnknownsOf(events: seq<Event>): (u: seq<string>)
    ensures |u| <= |events|
    ensures forall t :: t in u <==> exists e :: e in events && e.Unknown? && e.token == t
  {
    if events == [] then []
    else (if events[0].Unknown? then [events[0].token] else []) + UnknownsOf(events[1..])
  }

  /** The literal tail: what follows the `--` the scan stopped at, if it stopped at one. */
  function Literals(args: seq<string>, stop: nat): (l: seq<string>)
    ensures stop < |args| && args[stop] == "--" ==> args[..stop + 1] + l == args
    ensures !(stop < |args| && args[stop] == "--") ==> l == []
  {
    if stop < |args| && args[stop] == "--" then args[stop + 1..] else []
  }

  function Min(a: nat, b: nat): nat
  {
    if a < b then a else b
  }

  /** The fields of the returned object: `options`, `$flags`, `$args`, `$literals`, `$unknowns`. */
  datatype ParseResult = ParseResult(
    options: map<string, Value>, flags: seq<Descriptor>,
    args: seq<string>, literals: seq<string>, unknowns: seq<string>)

  /** A parse returns its result, or throws a TypeError from a push onto a non-array. */
  datatype Outcome = Parsed(result: ParseResult) | Threw(name: string)

  /** What the parser returns for a schema, an argument vector and an options object. */
  function ParseSpec(schema: Schema, argv: seq<string>, options: map<string, Value>): (r: Outcome)
    ensures r.Threw? ==> exists d :: d in Normalized(schema) && d.multi && d.name == r.name
    ensures r.Parsed? ==> options.Keys <= r.result.options.Keys
  {
    var flags := Normalized(schema);
    var args := Expand(argv);
    var c := Classify(flags, args, 0);
    match ApplyAll(options, flags, c.events)
    case PushOnNonArray(n) => Threw(n)
    case Ok(o) =>
      Parsed(ParseResult(o, flags, args[Min(c.stop, |args|)..], Literals(args, c.stop), UnknownsOf(c.events)))
  }

  /** The scan at a token that names descriptor `k`: one event, then the scan after its span. */
  lemma FlagStep(flags: seq<Descriptor>, args: seq<string>, i: nat, k: nat)
    requires i < |args| && args[i] != "--" && FirstMatch(flags, args[i]) == Some(k)
    ensures k < |flags|
    ensures Classify(flags, args, i).events ==
      [Take(flags, args, i, k)] + Classify(flags, args, i + Span(flags[k])).events
    ensures Classify(flags, args, i).stop == Classify(flags, args, i + Span(flags[k])).stop
  {
  }

  /** The scan at an unmatched flag-shaped token: one unknown, then the scan from the next token. */
  lemma UnknownStep(flags: seq<Descriptor>, args: seq<string>, i: nat)
    requires i < |args| && args[i] != "--" && FirstMatch(flags, args[i]).None? && IsFlagShaped(args[i])
    ensures Classify(flags, args, i).events == [Unknown(args[i])] + Classify(flags, args, i + 1).events
    ensures Classify(flags, args, i).stop == Classify(flags, args, i + 1).stop
  {
  }

  /** Applying and collecting over a sequence that starts with a given event. */
  lemma Cons(options: map<string, Value>, flags: seq<Descriptor>, e: Event, rest: seq<Event>)
    requires Fits(flags, e) && AllFit(flags, rest)
    ensures AllFit(flags, [e] + rest)
    ensures var first := StepEvent(options, flags, e);
      ApplyAll(options, flags, [e] + rest) ==
        if first.Ok? then ApplyAll(first.options, flags, rest) else first
    ensures UnknownsOf([e] + rest) == (if e.Unknown? then [e.token] else []) + UnknownsOf(rest)
  {
    assert ([e] + rest)[0] == e;
    assert ([e] + rest)[1..] == rest;
  }

  /** How the `ARGS` loop ends: with its state when it stops, or with a push that threw. */
  datatype ScanEnd = Stopped(options: map<string, Value>, unknowns: seq<string>, stop: nat) | Failed(name: string)

  /**
   * The loop from index `i` on, in the order the source does its work: each
   * matched flag is recorded at once, each unknown appended at once.
   */
  function Run(flags: seq<Descriptor>, args: seq<string>, i: nat,
               options: map<string, Value>, unknowns: seq<string>): (r: ScanEnd)
    requires i <= |args| + 1
    ensures r.Stopped? ==> i <= r.stop <= |args| + 1
    decreases |args| + 1 - i
  {
    if i >= |args| || args[i] == "--" then Stopped(options, unknowns, i)
    else
      match FirstMatch(flags, args[i])
      case Some(k) =>
        (match Record(options, flags[k], EventValue(Take(flags, args, i, k)))
         case PushOnNonArray(name) => Failed(name)
         case Ok(next) => Run(flags, args, i + Span(flags[k]), next, unknowns))
      case None =>
        if IsFlagShaped(args[i]) then Run(flags, args, i + 1, options, unknowns + [args[i]])
        else Stopped(options, unknowns, i)
  }

  /** How a scan ends, given the outcome of applying its events. */
  function Finish(applied: Applied, unknowns: seq<string>, stop: nat): ScanEnd
  {
    match applied
    case PushOnNonArray(name) => Failed(name)
    case Ok(o) => Stopped(o, unknowns, stop)
  }

  /** The loop does what the events say: `Run` agrees with `Classify` followed by `ApplyAll`. */
  lemma {:induction false} RunMeaning(flags: seq<Descriptor>, args: seq<string>, i: nat,
                                      options: map<string, Value>, unknowns: seq<string>)
    requires i <= |args| + 1
    ensures var c := Classify(flags, args, i);
      Run(flags, args, i, options, unknowns) ==
        Finish(ApplyAll(options, flags, c.events), unknowns + UnknownsOf(c.events), c.stop)
    decreases |args| + 1 - i, 1
  {
    var c := Classify(flags, args, i);
    if i >= |args| || args[i] == "--" {
      assert c == Classified([], i);
      assert unknowns + [] == unknowns;
    } else {
      match FirstMatch(flags, args[i]) {
        case Some(k) =>
          RunMeaningAtFlag(flags, args, i, options, unknowns, k);
        case None =>
          if IsFlagShaped(args[i]) {
            RunMeaningAtUnknown(flags, args, i, options, unknowns);
          } else {
            assert c == Classified([], i);
            assert unknowns + [] == unknowns;
          }
      }
    }
  }

  /** The loop appends an unmatched flag-shaped token to the unknowns and goes on. */
  lemma RunSkipsUnknown(flags: seq<Descriptor>, args: seq<string>, i: nat,
                        options: map<string, Value>, unknowns: seq<string>)
    requires i < |args| && args[i] != "--" && FirstMatch(flags, args[i]).None? && IsFlagShaped(args[i])
    ensures Run(flags, args, i, options, unknowns) == Run(flags, args, i + 1, options, unknowns + [args[i]])
  {
  }

  /** `RunMeaning` at a flag-shaped token that names no descriptor. */
  lemma {:induction false} RunMeaningAtUnknown(flags: seq<Descriptor>, args: seq<string>, i: nat,
                                               options: map<string, Value>, unknowns: seq<string>)
    requires i < |args| && args[i] != "--" && FirstMatch(flags, args[i]).None? && IsFlagShaped(args[i])
    ensures var c := Classify(flags, args, i);
      Run(flags, args, i, options, unknowns) ==
        Finish(ApplyAll(options, flags, c.events), unknowns + UnknownsOf(c.events), c.stop)
    decreases |args| + 1 - i, 0
  {
    var c := Classify(flags, args, i);
    UnknownStep(flags, args, i);
    var after := Classify(flags, args, i + 1);
    Cons(options, flags, Unknown(args[i]), after.events);
    assert ApplyAll(options, flags, c.events) == ApplyAll(options, flags, after.events);
    assert UnknownsOf(c.events) == [args[i]] + UnknownsOf(after.events);
    RunSkipsUnknown(flags, args, i, options, unknowns);
    RunMeaning(flags, args, i + 1, options, unknowns + [args[i]]);
    assert unknowns + [args[i]] + UnknownsOf(after.events)
        == unknowns + ([args[i]] + UnknownsOf(after.events));
  }

  /** `RunMeaning` at a token that names descriptor `k`. */
  lemma {:induction false} RunMeaningAtFlag(flags: seq<Descriptor>, args: seq<string>, i: nat,
                                            options: map<string, Value>, unknowns: seq<string>, k: nat)
    requires i < |args| && args[i] != "--" && FirstMatch(flags, args[i]) == Some(k)
    ensures var c := Classify(flags, args, i);
      Run(flags, args, i, options, unknowns) ==
        Finish(ApplyAll(options, flags, c.events), unknowns + UnknownsOf(c.events), c.stop)
    decreases |args| + 1 - i, 0
  {
    var c := Classify(flags, args, i);
    FlagStep(flags, args, i, k);
    var e := Take(flags, args, i, k);
    var after := Classify(flags, args, i + Span(flags[k]));
    Cons(options, flags, e, after.events);
    match Record(options, flags[k], EventValue(e)) {
      case PushOnNonArray(name) =>
        assert Run(flags, args, i, options, unknowns) == Failed(name);
      case Ok(next) =>
        var j := i + Span(flags[k]);
        assert ApplyAll(options, flags, c.events) == ApplyAll(next, flags, after.events);
        assert [] + UnknownsOf(after.events) == UnknownsOf(after.events);
        calc {
          Run(flags, args, i, options, unknowns);
          Run(flags, args, j, next, unknowns);
          { RunMeaning(flags, args, j, next, unknowns); }
          Finish(ApplyAll(next, flags, after.events), unknowns + UnknownsOf(after.events), after.stop);
          Finish(ApplyAll(options, flags, c.events), unknowns + UnknownsOf(c.events), c.stop);
        }
    }
  }

  /**
   * The `ARGS` loop: one pass over the expanded tokens that records into the
   * options as it goes. On a throw only `applied` is meaningful.
   */
  method ScanTokens(flags: seq<Descriptor>, args: seq<string>, options: map<string, Value>)
    returns (applied: Applied, stop: nat, literals: seq<string>, unknowns: seq<string>)
    ensures Run(flags, args, 0, options, []) == Finish(applied, unknowns, stop)
    ensures applied.Ok? ==> literals == Literals(args, stop)
  {
    var opts := options;
    unknowns, literals := [], [];
    var i := 0;
    while i < |args|
      invariant i <= |args| + 1
      invariant Run(flags, args, i, opts, unknowns) == Run(flags, args, 0, options, [])
      invariant literals == []
      decreases |args| + 1 - i
    {
      var token := args[i];
      if token == "--" {
        literals := args[i + 1..];
        break;
      }
      var found := FindFlag(flags, token);
      if found.Some? {
        var d := flags[found.value];
        ghost var e := Take(flags, args, i, found.value);
        var value;
        if Truthy(d.arg) {
          i := i + 1;
          value := if i < |args| then Str(args[i]) else Undefined;
        } else {
          value := True;
        }
        assert value == EventValue(e);
        match Record(opts, d, value) {
          case PushOnNonArray(name) =>
            return PushOnNonArray(name), i, literals, unknowns;
          case Ok(updated) =>
            opts := updated;
        }
        i := i + 1;
        continue;
      }
      if IsFlagShaped(token) {
        unknowns := unknowns + [token];
      } else {
        break;
      }
      i := i + 1;
    }
    applied, stop := Ok(opts), i;
  }

  /**
   * The exported parser: normalise the schema, expand the clusters, scan,
   * and assemble the result.
   */
  method Parse(schema: Schema, argv: seq<string>, options: map<string, Value>) returns (out: Outcome)
    ensures out == ParseSpec(schema, argv, options)
  {
    var flags := Normalize(schema);
    var args := Expand(argv);
    var applied, i, literals, unknowns := ScanTokens(flags, args, options);
    RunMeaning(flags, args, 0, options, []);
    match applied {
      case PushOnNonArray(name) =>
        out := Threw(name);
      case Ok(opts) =>
        out := Parsed(ParseResult(opts, flags, args[Min(i, |args|)..], literals, unknowns));
    }
  }
}
