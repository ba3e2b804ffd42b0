# optparse: a verified model of the option parser

This project models the command-line option parser in `lib/optparse.js`. It
is the function the compiler's command-line front end calls with a flag
schema, the argument vector and an options object. It returns the options
object filled in with:

- one entry per flag it recognised;
- `$flags`, the normalised descriptor list;
- `$args`, the tokens from where the scan stopped;
- `$literals`, the tokens after a `--` that stopped the scan;
- `$unknowns`, the flag-shaped tokens no descriptor claimed.

It also installs `help`, a renderer that lays the descriptors out as an
aligned usage table.

The model follows the four stages of that file:

- **FlagSchema** (`schema.dfy`) covers schema normalisation. A schema is
  either a list of descriptors the caller built, used unchanged, or a mapping
  `name: [desc, arg, abbr]`. The mapping gives one descriptor per entry, with
  `long` = `"--" + name`. The `short` form is the first two characters of
  `"-" + (abbr || name)`, or none when `abbr` is loosely equal to `0`. A flag
  is `multi` when its argument name contains `*` or `+`. `Normalize` is the
  loop that builds that list.
- **Tokens** (`tokens.dfy`) covers the two token patterns:
  - `^-\w{2,}` marks a cluster;
  - `^-[-\w]+$` marks a flag-shaped token.

  It also covers the expansion of each cluster `-abc` into `-a -b -c` before
  the scan.
- **Scan** (`scan.dfy`) covers the `ARGS` loop and the assembly of the
  result. It is specified in two parts:
  - `Classify` says how the tokens are read, as a list of events (a switch, a
    flag with its value, a flag whose value is missing, an unknown) and an
    index where the scan stopped;
  - `ApplyAll` says what those events do to the options, one at a time.
    Setting a plain flag overwrites. A multi flag pushes onto an array, and
    starts a fresh one when the slot is empty or falsy. Pushing onto a truthy
    non-array, inherited ones included, throws a `TypeError`, modelled as the
    outcome `Threw`.

  `ScanTokens` is the loop as the source writes it. `Run` is that loop
  written as a recursive function, and `RunMeaning` proves it agrees with the
  two parts. `Parse` is proved to equal `ParseSpec`, the composition of the
  stages.
- **ScanProperties** (`scan_properties.dfy`) proves what the scan
  guarantees:
  - why it stops;
  - that every token is consumed once or left in `$args`;
  - that it never reads past its stopping token;
  - how repeated flags accumulate and how the last value of a plain flag wins;
  - when a parse cannot throw;
  - that a cluster parses like its letters written out.
- **ScanExamples** (`scan_examples.dfy`) works through concrete parses. They
  include the edge cases of the code: a `--` taken as a value, a dangling
  value flag, a push onto a scalar.
- **Help** (`help.dfy`) covers the help text and the string repetition
  (`__repeatString`) that builds its padding. `RepeatString` is the doubling
  loop.

Four behaviours of the code are easy to miss, and the model keeps each:

- **A scan ends at the first plain word.** For `rest -- --out x` the scan
  stops at `rest`, so `$args` is all four tokens and `$literals` is empty
  (lib/optparse.js:53-57, 59). See `ScanExamples.SeparatorAfterWord`.
- **A `--` can be taken as a value.** A flag that takes an argument consumes
  a following `--` as its value, and the scan goes on (lib/optparse.js:45).
  See `ScanExamples.SeparatorTakenAsValue`.
- **A parse can throw.** A multi flag's `push` throws a `TypeError` when its
  slot holds a truthy value that is not an array (lib/optparse.js:47). That
  value can come from the options object the caller passed in, or from a
  plain descriptor of the same name in a caller-built list. It can also be
  a member every object inherits from `Object.prototype`: a multi flag named
  `constructor` or `toString` throws even on an empty options object. The
  model returns `Threw` (`ScanExamples.PushOntoScalarThrows`,
  `ScanExamples.InheritedNameThrows`). `ScanProperties.ApplyNeverThrows` and
  `ScanProperties.MappingNeverThrows` give conditions under which no parse
  throws.
- **The short form is at most two characters.** Only the first character of
  an explicit abbreviation survives, because the short form is cut to two
  characters. With no abbreviation and an empty name, the short form is a
  bare `-` (lib/optparse.js:17). See `FlagSchema.ShortForm`.

## Model

| member | source | states |
|---|---|---|
| FlagSchema.ShortForm | lib/optparse.js:17 | no short form exactly when the abbreviation is suppressed; otherwise a dash and the first character of the abbreviation, or of the name; a bare `-` for an empty name |
| FlagSchema.Describe | lib/optparse.js:10-19 | the descriptor keeps the entry's fields, has long form `--name` and the derived short form, and is multi exactly when its argument is non-empty and contains `*` or `+` |
| FlagSchema.Normalized | lib/optparse.js:6-22 | a built list is used unchanged; a mapping gives one descriptor per entry, in order |
| FlagSchema.Normalize | lib/optparse.js:6-22 | the loop returns exactly the normalised descriptor list |
| FlagSchema.NormalizedDistinct | lib/optparse.js:9-20 | entries with distinct names give descriptors with distinct names and distinct long forms |
| Tokens.ClusterShortsFlagShaped | lib/optparse.js:24-32 | for a token matching the cluster pattern `^-\w{2,}`, every short token it expands to matches the flag pattern `^-[-\w]+$` exactly when the cluster itself does |
| Tokens.ShortsFlagShaped | lib/optparse.js:25-32 | the short tokens of some letters all match the flag pattern exactly when every letter is a dash or a word character |
| Tokens.Shorts | lib/optparse.js:25-27 | one two-character token `-c` per letter, in order |
| Tokens.LettersOfShorts | lib/optparse.js:25-27 | dropping the dash from each short token gives back the letters |
| Tokens.ExpandToken | lib/optparse.js:24-30 | a cluster becomes one short token per letter, and putting a dash before their letters gives back the cluster; any other token is kept; no result is a cluster |
| Tokens.Expand | lib/optparse.js:23-31 | no expanded token is a cluster, and expansion never shortens the vector |
| Tokens.ExpandAppend | lib/optparse.js:23-31 | expansion distributes over concatenation |
| Tokens.ExpandFixed | lib/optparse.js:23-31 | a vector without clusters is left unchanged |
| Tokens.ExpandIdempotent | lib/optparse.js:23-31 | expanding twice is expanding once |
| Tokens.ExpandCluster | lib/optparse.js:23-31 | a cluster and its short flags written out expand to the same tokens |
| Scan.FirstMatchFrom | lib/optparse.js:40-44 | the result is the first descriptor whose short or long form equals the token; none when no descriptor does |
| Scan.FindFlag | lib/optparse.js:40-44 | the inner search loop finds exactly the first matching descriptor |
| Scan.Take | lib/optparse.js:45 | a matched token yields a flag event for that descriptor and that token; a switch exactly when the descriptor has no argument; otherwise the next token as value, or a missing value only at the last token |
| Scan.Classify | lib/optparse.js:34-58 | the scan stops at or after its start, at most one past the end, and every event names an existing descriptor |
| Scan.Record | lib/optparse.js:46-50 | a push succeeds exactly when the slot is an own falsy value or array, or is absent and not inherited from `Object.prototype`; only the flag's key is added or changed; a plain flag stores the value, except that an assignment to a `__proto__` the object does not hold is ignored; a multi flag stores the earlier array, or a fresh one, extended by the value; a throw names the flag |
| Scan.ApplyAll | lib/optparse.js:46-50 | applying events never removes a key, and a throw names a multi descriptor that one of the events records under |
| Scan.UnknownsOf | lib/optparse.js:54 | at most one unknown per event, and a token is an unknown exactly when some unknown event carries it |
| Scan.Literals | lib/optparse.js:37-59 | when the scan stopped at a `--`, the tokens up to and including it followed by the literals are the whole vector; otherwise there are no literals |
| Scan.ParseSpec | lib/optparse.js:2-59 | a parse that throws names a multi descriptor of the schema, and a parse that returns keeps every key of the options object it was given |
| Scan.Run | lib/optparse.js:34-58 | the loop, when it stops, stops at or after its start and at most one past the last token |
| Scan.RunMeaning | lib/optparse.js:34-58 | the loop's one-pass behaviour equals classifying the tokens and then applying the events |
| Scan.RunMeaningAtFlag | lib/optparse.js:40-51 | the same equality at a token that names a descriptor |
| Scan.RunMeaningAtUnknown | lib/optparse.js:53-54 | the same equality at an unmatched flag-shaped token |
| Scan.ScanTokens | lib/optparse.js:34-58 | the loop ends in the state the one-pass specification gives, and its literals are the tokens after the `--` it stopped at |
| Scan.Parse | lib/optparse.js:2-59 | the parser returns exactly what normalising, expanding, classifying and applying give |
| ScanProperties.ClassifyExplains | lib/optparse.js:36-54 | every event agrees with the checks the loop made: no event token is `--`; an unknown is flag-shaped and matches no descriptor; a flag event names the first matching descriptor and takes a value exactly when that descriptor has an argument |
| ScanProperties.ClassifyStop | lib/optparse.js:34-57 | the scan stops at the end, or one past it after a flag missing its value, or at a `--`, or at a token that matches nothing and is not flag-shaped |
| ScanProperties.ClassifyPartition | lib/optparse.js:34-59 | the tokens consumed, in order, followed by the tokens from the stopping point, are exactly the tokens scanned |
| ScanProperties.ClassifyLooksNoFurther | lib/optparse.js:34-58 | two token vectors that agree up to and including the stopping token are scanned identically |
| ScanProperties.ApplyLeavesOthers | lib/optparse.js:46-50 | a key no event records under keeps its presence and its value |
| ScanProperties.ApplyAccumulates | lib/optparse.js:46-47 | when every descriptor of a name is multi, that key ends as its earlier array, or a fresh one, extended by all values recorded for it, in order |
| ScanProperties.ApplyLastWins | lib/optparse.js:48-49 | when no descriptor of a name is multi, that key ends holding the last value recorded for it, except for a `__proto__` the object does not hold, which never appears |
| ScanProperties.ApplyNeverThrows | lib/optparse.js:46-47 | when descriptors sharing a name agree on multi and every multi slot can be pushed onto, applying the events never throws |
| ScanProperties.BooleanFlagsRecordTrue | lib/optparse.js:45 | a flag without an argument records only `true` |
| ScanProperties.ParseShape | lib/optparse.js:36-59 | `$args` is empty, or starts with the stopping `--` and continues with exactly `$literals`, or starts with an unmatched non-flag token while `$literals` is empty; every unknown is flag-shaped and matches no descriptor |
| ScanProperties.ParsePartition | lib/optparse.js:34-59 | the expanded tokens are the consumed tokens followed by `$args` |
| ScanProperties.MappingNeverThrows | lib/optparse.js:6-22 | a mapping schema never makes the parse throw when the options hold nothing its multi flags cannot push onto, own or inherited |
| ScanProperties.ClusterParsesAsShorts | lib/optparse.js:23-31 | a cluster parses exactly like its short flags written one by one |
| ScanExamples.SampleFlags | lib/optparse.js:10-19 | a sample mapping normalises to the descriptors written out: long and short forms, and `DIR*` marked repeatable |
| ScanExamples.UnknownBetweenKnown | lib/optparse.js:53-54 | an unknown flag between known ones is collected and the scan goes on |
| ScanExamples.ValueThenWord | lib/optparse.js:45-56 | a flag takes the next token as its value; the scan stops at a plain word, which leads `$args` |
| ScanExamples.RepeatedCollects | lib/optparse.js:46-47 | a repeatable flag collects its values into an array in order |
| ScanExamples.SeparatorAfterWord | lib/optparse.js:53-59 | a `--` after a plain word is never reached: `$args` keeps it and `$literals` is empty |
| ScanExamples.SeparatorStops | lib/optparse.js:36-38 | a `--` that stops the scan leads `$args`, and the tokens after it are `$literals` |
| ScanExamples.SeparatorTakenAsValue | lib/optparse.js:45 | a flag with an argument takes a following `--` as its value |
| ScanExamples.DanglingValue | lib/optparse.js:45 | a flag with an argument at the very end records `undefined` |
| ScanExamples.PushOntoScalarThrows | lib/optparse.js:47 | pushing onto a truthy string already in the options throws |
| ScanExamples.PushOntoFalsyStartsFresh | lib/optparse.js:47 | an empty string already in the options is replaced by a fresh array |
| ScanExamples.InheritedNameThrows | lib/optparse.js:47 | a multi flag named `constructor` throws on an empty options object |
| ScanExamples.ProtoAssignmentIgnored | lib/optparse.js:49 | a plain flag named `__proto__` is matched, but its value is not stored |
| ScanExamples.ShortsOneByOne | lib/optparse.js:40-51 | short flags match by their short form |
| ScanExamples.ClusterExpands | lib/optparse.js:23-31 | `-xo f` parses like `-x -o f` |
| ScanExamples.SuppressedShortIsUnknown | lib/optparse.js:17-42 | a flag whose short form is suppressed is not matched by it, and the token is collected as unknown |
| Help.RepeatString | lib/optparse.js:78-81 | the doubling loop returns exactly `n` copies of `str`, and none when `n` is not positive |
| Help.RepeatAdd | lib/optparse.js:78-81 | repetition counts add up, which is what lets the loop split `n` into its bits |
| Help.RepeatChar | lib/optparse.js:70 | the padding is made of spaces only |
| Help.LongColumn | lib/optparse.js:63-66 | the long column is the long form, followed by a space and the argument name when the argument is truthy |
| Help.Width | lib/optparse.js:67-69 | the width bounds every long column and is reached by one of them; 0 for no descriptors |
| Help.ShortColumn | lib/optparse.js:73 | the short column is the short form and a comma when the short form is truthy, and exactly three spaces otherwise; three characters wide when the short form fits |
| Help.DescText | lib/optparse.js:75 | a description is printed as given, and a missing one prints `undefined` |
| Help.Line | lib/optparse.js:71-75 | a line is two spaces, the short column and a space, then the long column padded or cut to exactly `width` characters, then two spaces and the description, for every short form |
| Help.Lines | lib/optparse.js:71-76 | one line per descriptor, line i rendering descriptor i with the width of the widest long column |
| Help.Join | lib/optparse.js:76 | joining no lines gives the empty text, and a joined text starts with its first line |
| Help.HelpText | lib/optparse.js:61-77 | the help text is empty exactly when there are no descriptors, and starts with the first descriptor's line |
| Help.LineHasNoNewline | lib/optparse.js:71-75 | a line whose short form, long form, argument and description hold no newline holds none |
| Help.PadTo | lib/optparse.js:70-74 | the result is always exactly the width; a column no wider than the width keeps its text and is padded with spaces |
| Help.LineLayout | lib/optparse.js:71-75 | for a short form of length 2, absent or empty, the first six characters are the indent, the short column and a space; the long column follows, padded with spaces to `width`; two spaces follow, and the description starts at `width + 8` |
| Help.LinesAligned | lib/optparse.js:61-77 | when every short form fits, every description starts at the same column `width + 8` |
| Help.NormalizedShortsFit | lib/optparse.js:73 | every short form a mapping with named entries produces fits the short column |
| Help.SplitJoin | lib/optparse.js:76 | joining newline-free lines with newlines and splitting at newlines gives the lines back |
| Help.HelpHasOneLinePerFlag | lib/optparse.js:61-77 | when no short form, long form, argument or description holds a newline, the help text splits into exactly one line per descriptor |

## Left out

- The default argument vector `process.argv.slice(2)` and the default empty
  options object (lib/optparse.js:4-5) are left out. Both are parameters of
  `ParseSpec`, because the model has no process.
- Installing `help` as `options.toString`, and storing the four `$` results
  on the options object itself (lib/optparse.js:59), are left out. The result
  is a separate `ParseResult` record. A flag named `$args` would collide with
  the result there, and the model does not capture that.
- The options object is taken to be a plain object whose prototype is
  `Object.prototype`, as the default `{}` is (lib/optparse.js:5). Its
  inherited members are modelled by name only: reading one that the object
  does not hold itself is truthy and not an array, and an assignment to
  `__proto__` it does not hold itself stores nothing. An object with another
  prototype, or with none, is not modelled.
- The caller's options object is modelled as a map threaded through the
  parse. Mutation in place, and aliasing of that object by the caller, are
  not modelled. In particular, when a push throws, the outcome `Threw`
  carries only the flag's name. The values recorded before the failing push
  are discarded, while the caller's object keeps them (lib/optparse.js:47-49).
- Key order under `for ... in` (lib/optparse.js:9) is taken to be the order
  of the entry sequence. JavaScript's own ordering rules, such as integer-like
  keys first, are not modelled.
- The runtime type test that tells an array schema from a mapping
  (lib/optparse.js:6) is left out. It is the choice of `Built` or `Mapping`.
- Loose equality with `0` for the abbreviation (lib/optparse.js:17) is left
  to the caller. Any value loosely equal to 0 is `Suppress`, an absent or
  falsy one is `Default`, and any other value is `Letter` of its first
  character, since only that character reaches the short form.
- Non-string values in the `desc`, `arg` and `abbr` slots are left out. So
  are descriptors a caller builds with a non-string `long`. All slots are
  strings or absent.
- `Value` models `true`, strings, `undefined` and arrays. Other values a
  caller may have put in the options object are left out. A truthy scalar of
  any kind behaves like a non-empty string.
- Help.Width: `Math.max` of no lengths is `-Infinity` (lib/optparse.js:67),
  and the model uses 0. The difference cannot be observed: with no
  descriptors the help text is empty either way.
- Help.RepeatString: the 32-bit conversion done by `>>=` and `&` is left
  out. Counts are taken to be integers below 2^31, and the padding width
  always is one.
- Strings are sequences of characters. UTF-16 surrogate pairs, which
  `split('')` and `slice` would cut in half, are not modelled.
