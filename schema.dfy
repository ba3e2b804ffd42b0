/**
 * Flag declarations and their normalisation into descriptors
 * (lib/optparse.js, lines 6-22).
 *
 * A schema is either a list of descriptors the caller already built, which is
 * used as it is, or a mapping from flag name to `[desc, arg, abbr]`, which is
 * turned into one descriptor per entry with derived `long`, `short` and
 * `multi` fields. The mapping is taken as an ordered sequence of entries (the
 * order in which `for ... in` visits the keys).
 */
module FlagSchema {

  /** An optional string slot of a declaration: `undefined`, or a string. */
  datatype Field = Missing | Text(s: string)

  /** JavaScript truthiness of an optional string: defined and non-empty. */
  predicate Truthy(f: Field)
  {
    f.Text? && f.s != ""
  }

  /**
   * The abbreviation slot. `Suppress` stands for a value loosely equal to 0
   * (such as `0`, `"0"`, `""` or `false`), which switches the short form off; `Letter(c)`
   * is an abbreviation whose first character is `c` (only that character
   * survives into the short form); `Default` is an absent abbreviation.
   */
  datatype Abbr = Default | Suppress | Letter(c: char)

  /** One entry `name: [desc, arg, abbr]` of the mapping form. */
  datatype Entry = Entry(name: string, desc: Field, arg: Field, abbr: Abbr)

  /**
   * A normalised flag. `short` is `Missing` where the source stores `false`.
   * Descriptors a caller builds itself may hold any values in these fields.
   */
  datatype Descriptor = Descriptor(
    name: string, desc: Field, arg: Field, abbr: Abbr,
    long: string, short: Field, multi: bool)

  /** The two shapes a schema can take. */
  datatype Schema = Built(flags: seq<Descriptor>) | Mapping(entries: seq<Entry>)

  /** The first `n` characters of `s`, or all of them when there are fewer. */
  function Prefix(s: string, n: nat): (p: string)
    ensures |p| == if |s| < n then |s| else n
    ensures p <= s
  {
    if |s| < n then s else s[..n]
  }

  /**
   * The short form of a flag: `false` when the abbreviation is suppressed,
   * otherwise the first two characters of `"-" + (abbr || name)`.
   */
  function ShortForm(name: string, abbr: Abbr): (short: Field)
    ensures short.Missing? <==> abbr.Suppress?
    ensures short.Text? ==> 1 <= |short.s| <= 2 && short.s[0] == '-'
    ensures abbr.Letter? ==> short == Text(['-', abbr.c])
    ensures abbr.Default? && name != "" ==> short == Text(['-', name[0]])
    ensures abbr.Default? && name == "" ==> short == Text("-")
  {
    match abbr
    case Suppress => Missing
    case Letter(c) => Text(Prefix("-" + [c], 2))
    case Default => Text(Prefix("-" + name, 2))
  }

  /** True iff `arg` contains a repetition marker, `*` or `+`. */
  predicate HasRepetition(arg: string)
  {
    '*' in arg || '+' in arg
  }

  /** The descriptor the mapping form derives from one entry. */
  function Describe(e: Entry): (d: Descriptor)
    ensures d.name == e.name && d.desc == e.desc && d.arg == e.arg && d.abbr == e.abbr
    ensures d.long == "--" + e.name
    ensures d.short == ShortForm(e.name, e.abbr)
    ensures d.multi <==>
      Truthy(e.arg) && exists k :: 0 <= k < |e.arg.s| && (e.arg.s[k] == '*' || e.arg.s[k] == '+')
  {
    Descriptor(e.name, e.desc, e.arg, e.abbr, "--" + e.name, ShortForm(e.name, e.abbr),
               Truthy(e.arg) && HasRepetition(e.arg.s))
  }

  /** The descriptor list a schema stands for. */
  function Normalized(schema: Schema): (flags: seq<Descriptor>)
    ensures schema.Built? ==> flags == schema.flags
    ensures schema.Mapping? ==>
      |flags| == |schema.entries| &&
      forall k :: 0 <= k < |flags| ==> flags[k] == Describe(schema.entries[k])
  {
    match schema
    case Built(fs) => fs
    case Mapping(es) => seq(|es|, k requires 0 <= k < |es| => Describe(es[k]))
  }

  /** No two entries share a name (the keys of a mapping are distinct). */
  predicate DistinctNames(es: seq<Entry>)
  {
    forall j, k :: 0 <= j < k < |es| ==> es[j].name != es[k].name
  }

  /**
   * Normalisation, as the source runs it: a built list is passed through; a
   * mapping is walked entry by entry, pushing one descriptor for each.
   */
  method Normalize(schema: Schema) returns (flags: seq<Descriptor>)
    ensures flags == Normalized(schema)
  {
    match schema {
      case Built(fs) =>
        flags := fs;
      case Mapping(es) =>
        flags := [];
        for k := 0 to |es|
          invariant |flags| == k
          invariant forall j :: 0 <= j < k ==> flags[j] == Describe(es[j])
        {
          flags := flags + [Describe(es[k])];
        }
    }
  }

  /**
   * Distinct entry names give distinct descriptor names and distinct long
   * forms, so a long flag can match only its own descriptor.
   */
  lemma NormalizedDistinct(es: seq<Entry>)
    requires DistinctNames(es)
    ensures var flags := Normalized(Mapping(es));
      forall j, k :: 0 <= j < k < |flags| ==>
        flags[j].name != flags[k].name && flags[j].long != flags[k].long
  {
    var flags := Normalized(Mapping(es));
    forall j, k | 0 <= j < k < |flags|
      ensures flags[j].name != flags[k].name && flags[j].long != flags[k].long
    {
      assert flags[j].long[2..] == es[j].name && flags[k].long[2..] == es[k].name;
    }
  }
}
