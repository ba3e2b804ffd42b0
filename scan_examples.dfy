/** Worked parses of lib/optparse.js on concrete argument vectors. */
module ScanExamples {
  import opened Wrappers
  import opened FlagSchema
  import opened Tokens
  import opened Scan

  /** `x` is boolean, `out` takes a FILE, `inc` takes any number of DIRs. */
  function Sample(): seq<Entry>
  {
    [Entry("x", Text("ex"), Missing, Default),
     Entry("out", Text("output"), Text("FILE"), Default),
     Entry("inc", Text("include"), Text("DIR*"), Default)]
  }

  /** The descriptors `Sample` normalises to, written out. */
  function SampleDescriptors(): seq<Descriptor>
  {
    [Descriptor("x", Text("ex"), Missing, Default, "--x", Text("-x"), false),
     Descriptor("out", Text("output"), Text("FILE"), Default, "--out", Text("-o"), false),
     Descriptor("inc", Text("include"), Text("DIR*"), Default, "--inc", Text("-i"), true)]
  }

  /** Normalising `Sample` derives the long and short forms and marks `DIR*` repeatable. */
  lemma SampleFlags()
    ensures Normalized(Mapping(Sample())) == SampleDescriptors()
  {
    var flags := Normalized(Mapping(Sample()));
    assert "DIR*"[3] == '*';
    assert !HasRepetition("FILE");
    assert flags[0] == SampleDescriptors()[0];
    assert flags[1] == SampleDescriptors()[1];
    assert flags[2] == SampleDescriptors()[2];
  }

  /** A parse of `Sample` over tokens that need no expansion, from its scan and its application. */
  lemma SampleParse(argv: seq<string>, options: map<string, Value>, c: Classified, o: map<string, Value>,
                    rest: seq<string>, literals: seq<string>, unknowns: seq<string>)
    requires forall t :: t in argv ==> !IsCluster(t)
    requires Classify(SampleDescriptors(), argv, 0) == c
    requires ApplyAll(options, SampleDescriptors(), c.events) == Ok(o)
    requires rest == argv[Min(c.stop, |argv|)..] && literals == Literals(argv, c.stop)
    requires unknowns == UnknownsOf(c.events)
    ensures ParseSpec(Mapping(Sample()), argv, options) ==
      Parsed(ParseResult(o, SampleDescriptors(), rest, literals, unknowns))
  {
    SampleFlags();
    ExpandFixed(argv);
  }

  /** A parse of `Sample` over tokens that need no expansion, where a push throws. */
  lemma SampleThrows(argv: seq<string>, options: map<string, Value>, c: Classified, name: string)
    requires forall t :: t in argv ==> !IsCluster(t)
    requires Classify(SampleDescriptors(), argv, 0) == c
    requires ApplyAll(options, SampleDescriptors(), c.events) == PushOnNonArray(name)
    ensures ParseSpec(Mapping(Sample()), argv, options) == Threw(name)
  {
    SampleFlags();
    ExpandFixed(argv);
  }

  /** Applying a single event. */
  lemma ApplyOne(options: map<string, Value>, flags: seq<Descriptor>, e: Event)
    requires Fits(flags, e)
    ensures AllFit(flags, [e]) && ApplyAll(options, flags, [e]) == StepEvent(options, flags, e)
  {
    Cons(options, flags, e, []);
    assert [e] + [] == [e];
  }

  /** Applying two events whose first records without throwing. */
  lemma ApplyTwo(options: map<string, Value>, flags: seq<Descriptor>, e1: Event, e2: Event, o1: map<string, Value>)
    requires Fits(flags, e1) && Fits(flags, e2) && StepEvent(options, flags, e1) == Ok(o1)
    ensures AllFit(flags, [e1, e2]) && ApplyAll(options, flags, [e1, e2]) == StepEvent(o1, flags, e2)
  {
    ApplyOne(o1, flags, e2);
    Cons(options, flags, e1, [e2]);
    assert [e1] + [e2] == [e1, e2];
  }

  /** The tokens a scan of `Sample` meets in these examples. */
  lemma SampleMatches()
    ensures FirstMatch(SampleDescriptors(), "-x") == Some(0)
    ensures FirstMatch(SampleDescriptors(), "-o") == Some(1)
    ensures FirstMatch(SampleDescriptors(), "--out") == Some(1)
    ensures FirstMatch(SampleDescriptors(), "-i") == Some(2)
    ensures FirstMatch(SampleDescriptors(), "--inc") == Some(2)
    ensures FirstMatch(SampleDescriptors(), "-y") == None && IsFlagShaped("-y")
    ensures FirstMatch(SampleDescriptors(), "rest") == None && !IsFlagShaped("rest")
    ensures !Inherited("inc") && "x" != "__proto__" && "out" != "__proto__"
  {
    assert IsWordChar('y');
  }

  /** An unknown flag between two known ones is collected, and scanning goes on. */
  lemma UnknownBetweenKnown()
    ensures ParseSpec(Mapping(Sample()), ["-x", "-y", "-o", "f"], map[]) ==
      Parsed(ParseResult(map["x" := True, "out" := Str("f")], SampleDescriptors(), [], [], ["-y"]))
  {
    var args := ["-x", "-y", "-o", "f"];
    var c := Classified([Switch("-x", 0), Unknown("-y"), WithValue("-o", 1, "f")], 4);
    SampleMatches();
    assert Classify(SampleDescriptors(), args, 0) == c;
    SampleParse(args, map[], c, map["x" := True, "out" := Str("f")], [], [], ["-y"]);
  }

  /** A flag with an argument takes the next token; the scan stops at a plain word. */
  lemma ValueThenWord()
    ensures ParseSpec(Mapping(Sample()), ["--out", "a.txt", "rest"], map[]) ==
      Parsed(ParseResult(map["out" := Str("a.txt")], SampleDescriptors(), ["rest"], [], []))
  {
    var args := ["--out", "a.txt", "rest"];
    var c := Classified([WithValue("--out", 1, "a.txt")], 2);
    SampleMatches();
    assert Classify(SampleDescriptors(), args, 0) == c;
    ApplyOne(map[], SampleDescriptors(), c.events[0]);
    SampleParse(args, map[], c, map["out" := Str("a.txt")], ["rest"], [], []);
  }

  /** A repeatable flag collects its values into an array, in order. */
  lemma RepeatedCollects()
    ensures ParseSpec(Mapping(Sample()), ["-i", "a", "--inc", "b"], map[]) ==
      Parsed(ParseResult(map["inc" := List([Str("a"), Str("b")])], SampleDescriptors(), [], [], []))
  {
    var args := ["-i", "a", "--inc", "b"];
    var c := Classified([WithValue("-i", 2, "a"), WithValue("--inc", 2, "b")], 4);
    SampleMatches();
    assert Classify(SampleDescriptors(), args, 2) == Classified([WithValue("--inc", 2, "b")], 4);
    assert Classify(SampleDescriptors(), args, 0) == c;
    var once := map["inc" := List([Str("a")])];
    var twice := map["inc" := List([Str("a"), Str("b")])];
    assert Record(map[], SampleDescriptors()[2], Str("a")) == Ok(once);
    assert [Str("a")] + [Str("b")] == [Str("a"), Str("b")];
    assert Record(once, SampleDescriptors()[2], Str("b")) == Ok(twice);
    ApplyTwo(map[], SampleDescriptors(), c.events[0], c.events[1], once);
    SampleParse(args, map[], c, twice, [], [], []);
  }

  /**
   * The scan stops at the first plain word, so a `--` after it is never
   * reached: it stays in `$args` and `$literals` is empty.
   */
  lemma SeparatorAfterWord()
    ensures ParseSpec(Mapping(Sample()), ["rest", "--", "--out", "x"], map[]) ==
      Parsed(ParseResult(map[], SampleDescriptors(), ["rest", "--", "--out", "x"], [], []))
  {
    var args := ["rest", "--", "--out", "x"];
    SampleMatches();
    assert Classify(SampleDescriptors(), args, 0) == Classified([], 0);
    SampleParse(args, map[], Classified([], 0), map[], args, [], []);
  }

  /** A `--` that stops the scan leads `$args`, and the tokens after it are `$literals`. */
  lemma SeparatorStops()
    ensures ParseSpec(Mapping(Sample()), ["-x", "--", "-x", "w"], map[]) ==
      Parsed(ParseResult(map["x" := True], SampleDescriptors(), ["--", "-x", "w"], ["-x", "w"], []))
  {
    var args := ["-x", "--", "-x", "w"];
    var c := Classified([Switch("-x", 0)], 1);
    SampleMatches();
    assert Classify(SampleDescriptors(), args, 0) == c;
    ApplyOne(map[], SampleDescriptors(), c.events[0]);
    SampleParse(args, map[], c, map["x" := True], ["--", "-x", "w"], ["-x", "w"], []);
  }

  /** A flag with an argument takes a following `--` as its value, and the scan goes on. */
  lemma SeparatorTakenAsValue()
    ensures ParseSpec(Mapping(Sample()), ["--out", "--", "-x"], map[]) ==
      Parsed(ParseResult(map["out" := Str("--"), "x" := True], SampleDescriptors(), [], [], []))
  {
    var args := ["--out", "--", "-x"];
    var c := Classified([WithValue("--out", 1, "--"), Switch("-x", 0)], 3);
    SampleMatches();
    assert Classify(SampleDescriptors(), args, 2) == Classified([Switch("-x", 0)], 3);
    assert Classify(SampleDescriptors(), args, 0) == c;
    assert StepEvent(map[], SampleDescriptors(), c.events[0]) == Ok(map["out" := Str("--")]);
    ApplyTwo(map[], SampleDescriptors(), c.events[0], c.events[1], map["out" := Str("--")]);
    SampleParse(args, map[], c, map["out" := Str("--"), "x" := True], [], [], []);
  }

  /** A flag with an argument at the very end records `undefined`. */
  lemma DanglingValue()
    ensures ParseSpec(Mapping(Sample()), ["--out"], map[]) ==
      Parsed(ParseResult(map["out" := Undefined], SampleDescriptors(), [], [], []))
  {
    var args := ["--out"];
    var c := Classified([MissingValue("--out", 1)], 2);
    SampleMatches();
    assert Classify(SampleDescriptors(), args, 0) == c;
    ApplyOne(map[], SampleDescriptors(), c.events[0]);
    SampleParse(args, map[], c, map["out" := Undefined], [], [], []);
  }

  /** Pushing onto a truthy non-array value already in the options throws. */
  lemma PushOntoScalarThrows()
    ensures ParseSpec(Mapping(Sample()), ["--inc", "a"], map["inc" := Str("old")]) == Threw("inc")
  {
    var args := ["--inc", "a"];
    var c := Classified([WithValue("--inc", 2, "a")], 2);
    SampleMatches();
    assert Classify(SampleDescriptors(), args, 0) == c;
    ApplyOne(map["inc" := Str("old")], SampleDescriptors(), c.events[0]);
    SampleThrows(args, map["inc" := Str("old")], c, "inc");
  }

  /** A falsy value already in the options is replaced by a fresh array. */
  lemma PushOntoFalsyStartsFresh()
    ensures ParseSpec(Mapping(Sample()), ["--inc", "a"], map["inc" := Str("")]) ==
      Parsed(ParseResult(map["inc" := List([Str("a")])], SampleDescriptors(), [], [], []))
  {
    var args := ["--inc", "a"];
    var c := Classified([WithValue("--inc", 2, "a")], 2);
    SampleMatches();
    assert Classify(SampleDescriptors(), args, 0) == c;
    assert Record(map["inc" := Str("")], SampleDescriptors()[2], Str("a")) == Ok(map["inc" := List([Str("a")])]);
    ApplyOne(map["inc" := Str("")], SampleDescriptors(), c.events[0]);
    SampleParse(args, map["inc" := Str("")], c, map["inc" := List([Str("a")])], [], [], []);
  }

  /** `-xo` expands to `-x -o`; a plain word is left alone. */
  lemma ClusterLetters()
    ensures Expand(["-xo", "f"]) == ["-x", "-o", "f"]
  {
    assert IsCluster("-xo") && !IsCluster("f");
    assert "-xo"[1..] == "xo";
    assert Shorts("xo") == ["-x", "-o"] by {
      assert Shorts("xo"[1..]) == ["-o"];
    }
    ExpandAppend(["-xo"], ["f"]);
    assert ["-xo"] + ["f"] == ["-xo", "f"];
    assert Expand(["-xo"]) == ["-x", "-o"] by { assert ["-xo"][1..] == []; }
    assert Expand(["f"]) == ["f"] by { assert ["f"][1..] == []; }
  }

  /** Short flags one by one: a boolean, then one that takes the next token. */
  lemma ShortsOneByOne()
    ensures ParseSpec(Mapping(Sample()), ["-x", "-o", "f"], map[]) ==
      Parsed(ParseResult(map["x" := True, "out" := Str("f")], SampleDescriptors(), [], [], []))
  {
    var args := ["-x", "-o", "f"];
    var c := Classified([Switch("-x", 0), WithValue("-o", 1, "f")], 3);
    SampleMatches();
    assert Classify(SampleDescriptors(), args, 0) == c;
    ApplyTwo(map[], SampleDescriptors(), c.events[0], c.events[1], map["x" := True]);
    SampleParse(args, map[], c, map["x" := True, "out" := Str("f")], [], [], []);
  }

  /** A cluster of short flags expands before the scan: `-xo f` parses like `-x -o f`. */
  lemma ClusterExpands(options: map<string, Value>)
    ensures ParseSpec(Mapping(Sample()), ["-xo", "f"], options) ==
            ParseSpec(Mapping(Sample()), ["-x", "-o", "f"], options)
  {
    ClusterLetters();
    ExpandFixed(["-x", "-o", "f"]);
  }

  /** A suppressed short form is never matched: `-x` is collected as unknown. */
  lemma SuppressedShortIsUnknown()
    ensures ParseSpec(Mapping([Entry("x", Missing, Missing, Suppress)]), ["-x"], map[]) ==
      Parsed(ParseResult(map[], [Descriptor("x", Missing, Missing, Suppress, "--x", Missing, false)], [], [], ["-x"]))
  {
    var flags := Normalized(Mapping([Entry("x", Missing, Missing, Suppress)]));
    assert flags[0] == Descriptor("x", Missing, Missing, Suppress, "--x", Missing, false);
    ExpandFixed(["-x"]);
    assert FirstMatch(flags, "-x") == None;
    assert IsFlagShaped("-x");
    assert Classify(flags, ["-x"], 0) == Classified([Unknown("-x")], 1);
  }

  /**
   * A multi flag named after an inherited member throws even on an empty
   * options object: `options.constructor` is a function, not an array.
   */
  lemma InheritedNameThrows()
    ensures ParseSpec(Mapping([Entry("constructor", Missing, Text("X*"), Default)]), ["--constructor", "a"], map[]) ==
      Threw("constructor")
  {
    var args := ["--constructor", "a"];
    var flags := Normalized(Mapping([Entry("constructor", Missing, Text("X*"), Default)]));
    var d := Descriptor("constructor", Missing, Text("X*"), Default, "--constructor", Text("-c"), true);
    assert flags[0] == d;
    ExpandFixed(args);
    assert FirstMatch(flags, "--constructor") == Some(0);
    assert Classify(flags, args, 0) == Classified([WithValue("--constructor", 0, "a")], 2);
    assert Record(map[], d, Str("a")) == PushOnNonArray("constructor");
  }

  /** A plain flag named `__proto__` is matched, but assigning its value stores nothing. */
  lemma ProtoAssignmentIgnored()
    ensures ParseSpec(Mapping([Entry("__proto__", Missing, Text("X"), Default)]), ["--__proto__", "a"], map[]) ==
      Parsed(ParseResult(map[], [Descriptor("__proto__", Missing, Text("X"), Default, "--__proto__", Text("-_"), false)],
                         [], [], []))
  {
    var args := ["--__proto__", "a"];
    var flags := Normalized(Mapping([Entry("__proto__", Missing, Text("X"), Default)]));
    var d := Descriptor("__proto__", Missing, Text("X"), Default, "--__proto__", Text("-_"), false);
    assert flags[0] == d;
    ExpandFixed(args);
    assert FirstMatch(flags, "--__proto__") == Some(0);
    assert Classify(flags, args, 0) == Classified([WithValue("--__proto__", 0, "a")], 2);
    assert Record(map[], d, Str("a")) == Ok(map[]);
  }
}
