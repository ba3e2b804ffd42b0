/**
 * What the scan guarantees (lib/optparse.js, lines 32-59): how the tokens are
 * partitioned, why the scan stops, how values accumulate, and when a parse
 * cannot throw.
 */
module ScanProperties {
  import opened Wrappers
  import opened FlagSchema
  import opened Tokens
  import opened Scan

  /** The tokens an event consumed, in order: the flag and, if it took one, its value. */
  function TokensOf(e: Event): seq<string>
  {
    match e
    case WithValue(t, _, v) => [t, v]
    case Switch(t, _) => [t]
    case MissingValue(t, _) => [t]
    case Unknown(t) => [t]
  }

  /** All tokens the events consumed, in order. */
  function Consumed(events: seq<Event>): seq<string>
  {
    if events == [] then [] else TokensOf(events[0]) + Consumed(events[1..])
  }

  /**
   * Every event states what the scan checked of its token: an unknown is
   * flag-shaped and names no descriptor; a flag event names its descriptor
   * first, and takes a value exactly when that descriptor has an argument.
   */
  lemma {:induction false} ClassifyExplains(flags: seq<Descriptor>, args: seq<string>, i: nat)
    requires i <= |args| + 1
    ensures forall e :: e in Classify(flags, args, i).events ==> Explains(flags, e)
    decreases |args| + 1 - i
  {
    if i < |args| && args[i] != "--" {
      match FirstMatch(flags, args[i]) {
        case Some(k) =>
          FlagStep(flags, args, i, k);
          ClassifyExplains(flags, args, i + Span(flags[k]));
        case None =>
          if IsFlagShaped(args[i]) {
            UnknownStep(flags, args, i);
            ClassifyExplains(flags, args, i + 1);
          }
      }
    }
  }

  /**
   * Why the scan stopped: it ran off the end (one past it exactly when the
   * last flag was missing its value), or it reached a `--`, or it reached a
   * token that names no descriptor and is not flag-shaped.
   */
  lemma {:induction false} ClassifyStop(flags: seq<Descriptor>, args: seq<string>, i: nat)
    requires i <= |args|
    ensures var c := Classify(flags, args, i);
      (c.stop == |args|) ||
      (c.stop == |args| + 1 && c.events != [] && c.events[|c.events| - 1].MissingValue?) ||
      (c.stop < |args| && args[c.stop] == "--") ||
      (c.stop < |args| && FirstMatch(flags, args[c.stop]).None? && !IsFlagShaped(args[c.stop]))
    decreases |args| - i
  {
    if i < |args| && args[i] != "--" {
      match FirstMatch(flags, args[i]) {
        case Some(k) =>
          FlagStep(flags, args, i, k);
          var j := i + Span(flags[k]);
          if j <= |args| {
            ClassifyStop(flags, args, j);
          } else {
            assert Classify(flags, args, j) == Classified([], j);
          }
        case None =>
          if IsFlagShaped(args[i]) {
            UnknownStep(flags, args, i);
            ClassifyStop(flags, args, i + 1);
          }
      }
    }
  }

  /**
   * No token is lost or duplicated: the tokens the scan consumed, followed by
   * the tokens from where it stopped, are the tokens it was given.
   */
  lemma {:induction false} ClassifyPartition(flags: seq<Descriptor>, args: seq<string>, i: nat)
    requires i <= |args| + 1
    ensures var c := Classify(flags, args, i);
      Consumed(c.events) + args[Min(c.stop, |args|)..] == args[Min(i, |args|)..]
    decreases |args| + 1 - i
  {
    if i < |args| && args[i] != "--" {
      match FirstMatch(flags, args[i]) {
        case Some(k) =>
          ClassifyPartition(flags, args, i + Span(flags[k]));
          PartitionAtFlag(flags, args, i, k);
        case None =>
          if IsFlagShaped(args[i]) {
            ClassifyPartition(flags, args, i + 1);
            PartitionAtUnknown(flags, args, i);
          }
      }
    }
  }

  /** A flag event consumes its token and, when its descriptor has an argument, the next token if any. */
  lemma TakeTokens(flags: seq<Descriptor>, args: seq<string>, i: nat, k: nat)
    requires i < |args| && k < |flags|
    ensures TokensOf(Take(flags, args, i, k)) == args[i..Min(i + Span(flags[k]), |args|)]
  {
    if Truthy(flags[k].arg) && i + 1 < |args| {
      assert args[i..i + 2] == [args[i], args[i + 1]];
    } else {
      assert args[i..i + 1] == [args[i]];
    }
  }

  /** The partition from a flag token follows from the partition after its span. */
  lemma PartitionAtFlag(flags: seq<Descriptor>, args: seq<string>, i: nat, k: nat)
    requires i < |args| && args[i] != "--" && FirstMatch(flags, args[i]) == Some(k)
    requires var next := Classify(flags, args, i + Span(flags[k]));
      Consumed(next.events) + args[Min(next.stop, |args|)..] == args[Min(i + Span(flags[k]), |args|)..]
    ensures var c := Classify(flags, args, i);
      Consumed(c.events) + args[Min(c.stop, |args|)..] == args[i..]
  {
    FlagStep(flags, args, i, k);
    TakeTokens(flags, args, i, k);
    var j := i + Span(flags[k]);
    PartitionStep(args, i, j, Take(flags, args, i, k), Classify(flags, args, i), Classify(flags, args, j));
  }

  /** The partition from an unknown token follows from the partition after it. */
  lemma PartitionAtUnknown(flags: seq<Descriptor>, args: seq<string>, i: nat)
    requires i < |args| && args[i] != "--" && FirstMatch(flags, args[i]).None? && IsFlagShaped(args[i])
    requires var next := Classify(flags, args, i + 1);
      Consumed(next.events) + args[Min(next.stop, |args|)..] == args[i + 1..]
    ensures var c := Classify(flags, args, i);
      Consumed(c.events) + args[Min(c.stop, |args|)..] == args[i..]
  {
    UnknownStep(flags, args, i);
    assert args[i..i + 1] == [args[i]];
    PartitionStep(args, i, i + 1, Unknown(args[i]), Classify(flags, args, i), Classify(flags, args, i + 1));
  }

  /** One event's tokens, then the partition from the next index, is the partition from this one. */
  lemma PartitionStep(args: seq<string>, i: nat, j: nat, e: Event, c: Classified, next: Classified)
    requires i < |args| && i < j
    requires c.events == [e] + next.events && c.stop == next.stop
    requires TokensOf(e) == args[i..Min(j, |args|)]
    requires Consumed(next.events) + args[Min(next.stop, |args|)..] == args[Min(j, |args|)..]
    ensures Consumed(c.events) + args[Min(c.stop, |args|)..] == args[i..]
  {
    var m := Min(j, |args|);
    var rest, tail := Consumed(next.events), args[Min(next.stop, |args|)..];
    ConsumedCons(e, next.events);
    calc {
      Consumed(c.events) + tail;
      (args[i..m] + rest) + tail;
      args[i..m] + (rest + tail);
      args[i..m] + args[m..];
      { SliceJoin(args, i, m); }
      args[i..];
    }
  }

  /** The tokens of events led by `e`. */
  lemma ConsumedCons(e: Event, rest: seq<Event>)
    ensures Consumed([e] + rest) == TokensOf(e) + Consumed(rest)
  {
    assert ([e] + rest)[1..] == rest;
  }

  lemma SliceJoin(s: seq<string>, i: nat, m: nat)
    requires i <= m <= |s|
    ensures s[i..m] + s[m..] == s[i..]
  {
  }

  /**
   * The scan never looks past the token it stopped at: two token lists that
   * agree up to and including that token are scanned identically.
   */
  lemma {:induction false} ClassifyLooksNoFurther(flags: seq<Descriptor>, a: seq<string>, b: seq<string>, i: nat)
    requires i <= |a| && i <= |b|
    requires Classify(flags, a, i).stop < |a| && Classify(flags, a, i).stop < |b|
    requires a[..Classify(flags, a, i).stop + 1] == b[..Classify(flags, a, i).stop + 1]
    ensures Classify(flags, b, i) == Classify(flags, a, i)
    decreases |a| - i
  {
    var s := Classify(flags, a, i).stop;
    assert a[i] == a[..s + 1][i] && b[i] == b[..s + 1][i];
    if a[i] != "--" {
      match FirstMatch(flags, a[i]) {
        case Some(k) =>
          FlagStep(flags, a, i, k);
          FlagStep(flags, b, i, k);
          var j := i + Span(flags[k]);
          if Truthy(flags[k].arg) {
            assert a[i + 1] == a[..s + 1][i + 1] && b[i + 1] == b[..s + 1][i + 1];
          }
          ClassifyLooksNoFurther(flags, a, b, j);
        case None =>
          if IsFlagShaped(a[i]) {
            UnknownStep(flags, a, i);
            UnknownStep(flags, b, i);
            ClassifyLooksNoFurther(flags, a, b, i + 1);
          }
      }
    }
  }

  /** The values recorded under `name`, in the order of the events that recorded them. */
  function ValuesFor(flags: seq<Descriptor>, events: seq<Event>, name: string): seq<Value>
    requires AllFit(flags, events)
  {
    if events == [] then []
    else
      assert events[0] in events;
      var e := events[0];
      (if !e.Unknown? && flags[e.flag].name == name then [EventValue(e)] else []) +
      ValuesFor(flags, events[1..], name)
  }

  /** No event records under `name`: the key is left as it was, present or not. */
  lemma {:induction false} ApplyLeavesOthers(options: map<string, Value>, flags: seq<Descriptor>,
                                             events: seq<Event>, name: string)
    requires AllFit(flags, events)
    requires ApplyAll(options, flags, events).Ok? && ValuesFor(flags, events, name) == []
    ensures var o := ApplyAll(options, flags, events).options;
      (name in o <==> name in options) && (name in options ==> o[name] == options[name])
    decreases |events|
  {
    if events != [] {
      var e, rest := events[0], events[1..];
      assert events == [e] + rest;
      assert e in events;
      Cons(options, flags, e, rest);
      var first := StepEvent(options, flags, e);
      ApplyLeavesOthers(first.options, flags, rest, name);
    }
  }

  /**
   * When every descriptor named `name` is multi, the key ends up holding the
   * array it held before (or a fresh one) extended by every value recorded
   * for it, in order of occurrence.
   */
  lemma {:induction false} ApplyAccumulates(options: map<string, Value>, flags: seq<Descriptor>,
                                            events: seq<Event>, name: string)
    requires AllFit(flags, events)
    requires forall k :: 0 <= k < |flags| && flags[k].name == name ==> flags[k].multi
    requires ApplyAll(options, flags, events).Ok? && ValuesFor(flags, events, name) != []
    ensures name in ApplyAll(options, flags, events).options
    ensures ApplyAll(options, flags, events).options[name] ==
      List(Prior(options, name) + ValuesFor(flags, events, name))
    decreases |events|, 1
  {
    var e, rest := events[0], events[1..];
    assert e in events;
    if !e.Unknown? && flags[e.flag].name == name {
      AccumulateHere(options, flags, events, name);
    } else {
      var first := StepEvent(options, flags, e).options;
      assert ApplyAll(options, flags, events) == ApplyAll(first, flags, rest);
      assert ValuesFor(flags, events, name) == ValuesFor(flags, rest, name);
      StepElsewhere(options, flags, e, name);
      ApplyAccumulates(first, flags, rest, name);
    }
  }

  /** The accumulation when the first event records under `name`. */
  lemma {:induction false} AccumulateHere(options: map<string, Value>, flags: seq<Descriptor>,
                                          events: seq<Event>, name: string)
    requires AllFit(flags, events) && events != []
    requires !events[0].Unknown? && events[0].flag < |flags| && flags[events[0].flag].name == name
    requires forall k :: 0 <= k < |flags| && flags[k].name == name ==> flags[k].multi
    requires ApplyAll(options, flags, events).Ok?
    ensures name in ApplyAll(options, flags, events).options
    ensures ApplyAll(options, flags, events).options[name] ==
      List(Prior(options, name) + ValuesFor(flags, events, name))
    decreases |events|, 0
  {
    var e, rest := events[0], events[1..];
    var first := StepEvent(options, flags, e).options;
    var later := ValuesFor(flags, rest, name);
    var v := EventValue(e);
    assert ApplyAll(options, flags, events) == ApplyAll(first, flags, rest);
    assert ValuesFor(flags, events, name) == [v] + later;
    assert Prior(first, name) == Prior(options, name) + [v];
    if later == [] {
      ApplyLeavesOthers(first, flags, rest, name);
      assert [v] + later == [v];
    } else {
      ApplyAccumulates(first, flags, rest, name);
      assert Prior(options, name) + [v] + later == Prior(options, name) + ([v] + later);
    }
  }

  /** An event that records under another name leaves `name` as it was. */
  lemma StepElsewhere(options: map<string, Value>, flags: seq<Descriptor>, e: Event, name: string)
    requires Fits(flags, e) && StepEvent(options, flags, e).Ok?
    requires e.Unknown? || flags[e.flag].name != name
    ensures var first := StepEvent(options, flags, e).options;
      (name in first <==> name in options) && (name in options ==> first[name] == options[name]) &&
      Prior(first, name) == Prior(options, name)
  {
  }

  /**
   * When no descriptor named `name` is multi, the key holds the last value
   * recorded for it; but when the assignments under that name are all
   * ignored (a `__proto__` the object does not hold), the key never appears.
   */
  lemma {:induction false} ApplyLastWins(options: map<string, Value>, flags: seq<Descriptor>,
                                         events: seq<Event>, name: string)
    requires AllFit(flags, events)
    requires forall k :: 0 <= k < |flags| && flags[k].name == name ==> !flags[k].multi
    requires ApplyAll(options, flags, events).Ok? && ValuesFor(flags, events, name) != []
    ensures name in ApplyAll(options, flags, events).options <==> Assignable(options, name)
    ensures var values := ValuesFor(flags, events, name);
      Assignable(options, name) ==> ApplyAll(options, flags, events).options[name] == values[|values| - 1]
    decreases |events|
  {
    var e, rest := events[0], events[1..];
    assert events == [e] + rest;
    assert e in events;
    Cons(options, flags, e, rest);
    var first := StepEvent(options, flags, e).options;
    if ValuesFor(flags, rest, name) == [] {
      ApplyLeavesOthers(first, flags, rest, name);
    } else {
      ApplyLastWins(first, flags, rest, name);
    }
  }

  /** Descriptors that share a name agree on being multi. */
  predicate SharedNamesAgree(flags: seq<Descriptor>)
  {
    forall j, k :: 0 <= j < |flags| && 0 <= k < |flags| && flags[j].name == flags[k].name ==>
      flags[j].multi == flags[k].multi
  }

  /** Every multi descriptor can push onto what the options hold under its name. */
  predicate Pushable(options: map<string, Value>, flags: seq<Descriptor>)
  {
    forall k :: 0 <= k < |flags| && flags[k].multi ==> CanPush(options, flags[k].name)
  }

  /** Recording one event keeps every multi descriptor able to push. */
  lemma StepKeepsPushable(options: map<string, Value>, flags: seq<Descriptor>, e: Event)
    requires Fits(flags, e) && SharedNamesAgree(flags) && Pushable(options, flags)
    ensures StepEvent(options, flags, e).Ok?
    ensures Pushable(StepEvent(options, flags, e).options, flags)
  {
    if !e.Unknown? {
      var d := flags[e.flag];
      var o := StepEvent(options, flags, e).options;
      forall k | 0 <= k < |flags| && flags[k].multi
        ensures CanPush(o, flags[k].name)
      {
        if flags[k].name == d.name {
          assert d.multi;
        }
      }
    }
  }

  /**
   * A push throws only onto a truthy non-array: when the descriptors that
   * share a name agree on being multi and the options hold nothing a multi
   * flag cannot push onto, applying the events never throws.
   */
  lemma {:induction false} ApplyNeverThrows(options: map<string, Value>, flags: seq<Descriptor>, events: seq<Event>)
    requires AllFit(flags, events) && SharedNamesAgree(flags) && Pushable(options, flags)
    ensures ApplyAll(options, flags, events).Ok?
    decreases |events|
  {
    if events != [] {
      var e, rest := events[0], events[1..];
      assert events == [e] + rest;
      assert e in events;
      Cons(options, flags, e, rest);
      StepKeepsPushable(options, flags, e);
      ApplyNeverThrows(StepEvent(options, flags, e).options, flags, rest);
    }
  }

  /**
   * A flag without an argument only ever records `true`: if every descriptor
   * named `name` is boolean, every value recorded under it is `true`.
   */
  lemma {:induction false} BooleanFlagsRecordTrue(flags: seq<Descriptor>, events: seq<Event>, name: string)
    requires AllFit(flags, events)
    requires forall e :: e in events ==> Explains(flags, e)
    requires forall k :: 0 <= k < |flags| && flags[k].name == name ==> !Truthy(flags[k].arg)
    ensures forall v :: v in ValuesFor(flags, events, name) ==> v == True
    decreases |events|
  {
    if events != [] {
      assert events[0] in events;
      assert events[0].Switch? || events[0].Unknown? || flags[events[0].flag].name != name;
      BooleanFlagsRecordTrue(flags, events[1..], name);
    }
  }

  /**
   * The shape of a parse result: `$args` is empty, or starts with the `--`
   * that stopped the scan and then holds exactly `$literals`, or starts with
   * an unmatched token that is not flag-shaped and `$literals` is empty.
   * Every unknown is flag-shaped and names no descriptor.
   */
  lemma ParseShape(schema: Schema, argv: seq<string>, options: map<string, Value>)
    ensures ParseSpec(schema, argv, options).Parsed? ==>
      var r := ParseSpec(schema, argv, options).result;
      ((r.args == [] && r.literals == []) ||
       (r.args[0] == "--" && r.literals == r.args[1..]) ||
       (r.args[0] != "--" && r.literals == [] &&
        FirstMatch(r.flags, r.args[0]).None? && !IsFlagShaped(r.args[0]))) &&
      (forall u :: u in r.unknowns ==> IsFlagShaped(u) && FirstMatch(r.flags, u).None?)
  {
    var flags, args := Normalized(schema), Expand(argv);
    var c := Classify(flags, args, 0);
    ClassifyStop(flags, args, 0);
    ClassifyExplains(flags, args, 0);
    UnknownsExplained(flags, c.events);
  }

  /** Every token among the unknowns comes from an unknown event. */
  lemma {:induction false} UnknownsExplained(flags: seq<Descriptor>, events: seq<Event>)
    requires forall e :: e in events ==> Explains(flags, e)
    ensures forall u :: u in UnknownsOf(events) ==> IsFlagShaped(u) && FirstMatch(flags, u).None?
  {
    if events != [] {
      assert events[0] in events;
      UnknownsExplained(flags, events[1..]);
    }
  }

  /**
   * The expanded tokens are the ones the scan consumed followed by `$args`:
   * every token went to exactly one place.
   */
  lemma ParsePartition(schema: Schema, argv: seq<string>, options: map<string, Value>)
    ensures ParseSpec(schema, argv, options).Parsed? ==>
      Consumed(Classify(Normalized(schema), Expand(argv), 0).events) +
        ParseSpec(schema, argv, options).result.args == Expand(argv)
  {
    ClassifyPartition(Normalized(schema), Expand(argv), 0);
  }

  /**
   * A schema in mapping form cannot make the parse throw, provided the
   * options object supplied holds nothing its multi flags cannot push onto.
   * An empty object qualifies only when no multi flag is named after a
   * member every object inherits (`constructor`, `toString`, ...): reading
   * such a name finds a function, and the push throws.
   */
  lemma MappingNeverThrows(es: seq<Entry>, argv: seq<string>, options: map<string, Value>)
    requires DistinctNames(es)
    requires forall e :: e in es && Describe(e).multi ==> CanPush(options, e.name)
    ensures ParseSpec(Mapping(es), argv, options).Parsed?
  {
    var flags := Normalized(Mapping(es));
    NormalizedDistinct(es);
    assert forall k :: 0 <= k < |flags| ==> es[k] in es;
    ApplyNeverThrows(options, flags, Classify(flags, Expand(argv), 0).events);
  }

  /** A clustered token parses exactly like its short flags written one by one. */
  lemma ClusterParsesAsShorts(schema: Schema, pre: seq<string>, t: string, post: seq<string>,
                              options: map<string, Value>)
    requires IsCluster(t)
    ensures ParseSpec(schema, pre + [t] + post, options) ==
            ParseSpec(schema, pre + ExpandToken(t) + post, options)
  {
    ExpandCluster(pre, t, post);
  }
}
