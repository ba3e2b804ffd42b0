/**
 * The two token patterns of the parser and the expansion of clustered short
 * flags (lib/optparse.js, lines 23-32).
 *
 * `\w` is the ASCII word class `[A-Za-z0-9_]`. The cluster pattern
 * `^-\w{2,}` is anchored at the start only, so `-ab=c` is a cluster too.
 */
module Tokens {

  /** The regular-expression class `\w`. */
  predicate IsWordChar(c: char)
  {
    ('A' <= c <= 'Z') || ('a' <= c <= 'z') || ('0' <= c <= '9') || c == '_'
  }

  /** `^-\w{2,}`: a dash followed by at least two word characters. */
  predicate IsCluster(t: string)
  {
    |t| >= 3 && t[0] == '-' && IsWordChar(t[1]) && IsWordChar(t[2])
  }

  /** `^-[-\w]+$`: a dash followed only by dashes and word characters, at least one. */
  predicate IsFlagShaped(t: string)
  {
    |t| >= 2 && t[0] == '-' && forall k :: 1 <= k < |t| ==> t[k] == '-' || IsWordChar(t[k])
  }

  /**
   * A cluster expands into tokens that all look like flags exactly when the
   * cluster itself does: `-ab=c` is a cluster, but its `-=` is not flag-shaped.
   */
  lemma ClusterShortsFlagShaped(t: string)
    requires IsCluster(t)
    ensures (forall u :: u in ExpandToken(t) ==> IsFlagShaped(u)) <==> IsFlagShaped(t)
  {
    var letters := t[1..];
    assert ExpandToken(t) == Shorts(letters);
    ShortsFlagShaped(letters);
    assert (forall k :: 0 <= k < |letters| ==> letters[k] == '-' || IsWordChar(letters[k])) <==>
           (forall k :: 1 <= k < |t| ==> t[k] == '-' || IsWordChar(t[k])) by {
      assert forall k :: 1 <= k < |t| ==> letters[k - 1] == t[k];
    }
  }

  /** The short flags of `letters` all look like flags exactly when each letter is a dash or a word character. */
  lemma ShortsFlagShaped(letters: string)
    ensures (forall u :: u in Shorts(letters) ==> IsFlagShaped(u)) <==>
            (forall k :: 0 <= k < |letters| ==> letters[k] == '-' || IsWordChar(letters[k]))
  {
    var r := Shorts(letters);
    if forall u :: u in r ==> IsFlagShaped(u) {
      forall k | 0 <= k < |letters|
        ensures letters[k] == '-' || IsWordChar(letters[k])
      {
        assert r[k] in r;
        ShortShape(letters[k]);
      }
    }
    if forall k :: 0 <= k < |letters| ==> letters[k] == '-' || IsWordChar(letters[k]) {
      forall u | u in r
        ensures IsFlagShaped(u)
      {
        var k :| 0 <= k < |r| && r[k] == u;
        ShortShape(letters[k]);
      }
    }
  }

  /** A two-character token `-c` is flag-shaped exactly when `c` is a dash or a word character. */
  lemma ShortShape(c: char)
    ensures IsFlagShaped(['-', c]) <==> c == '-' || IsWordChar(c)
  {
    assert ['-', c][1] == c;
  }

  /** One short-flag token `"-" + c` for every character `c` of `letters`, in order. */
  function Shorts(letters: string): (r: seq<string>)
    ensures |r| == |letters|
    ensures forall k :: 0 <= k < |r| ==> r[k] == ['-', letters[k]]
  {
    if letters == [] then [] else [['-', letters[0]]] + Shorts(letters[1..])
  }

  /** Everything after the leading character of each token, concatenated. */
  function Letters(tokens: seq<string>): string
  {
    if tokens == [] then ""
    else (if tokens[0] == "" then "" else tokens[0][1..]) + Letters(tokens[1..])
  }

  /** Stripping the dashes that `Shorts` adds gives back its input. */
  lemma {:induction false} LettersOfShorts(letters: string)
    ensures Letters(Shorts(letters)) == letters
  {
    if letters != [] {
      LettersOfShorts(letters[1..]);
      assert Shorts(letters)[1..] == Shorts(letters[1..]);
    }
  }

  /**
   * The expansion of one token: a cluster becomes one short flag per
   * character after its leading dash; any other token is kept as it is.
   */
  function ExpandToken(t: string): (r: seq<string>)
    ensures IsCluster(t) ==> |r| == |t| - 1 && "-" + Letters(r) == t
    ensures IsCluster(t) ==> forall u :: u in r ==> |u| == 2 && u[0] == '-'
    ensures !IsCluster(t) ==> r == [t]
    ensures forall u :: u in r ==> !IsCluster(u)
  {
    if IsCluster(t) then
      LettersOfShorts(t[1..]);
      Shorts(t[1..])
    else
      [t]
  }

  /** The whole argument vector with every token expanded, flattened in order. */
  function Expand(args: seq<string>): (r: seq<string>)
    ensures forall u :: u in r ==> !IsCluster(u)
    ensures |r| >= |args|
  {
    if args == [] then [] else ExpandToken(args[0]) + Expand(args[1..])
  }

  /** Expansion is done token by token: it distributes over concatenation. */
  lemma {:induction false} ExpandAppend(a: seq<string>, b: seq<string>)
    ensures Expand(a + b) == Expand(a) + Expand(b)
  {
    if a == [] {
      assert a + b == b;
    } else {
      assert (a + b)[1..] == a[1..] + b;
      ExpandAppend(a[1..], b);
    }
  }

  /** A vector holding no cluster is left unchanged by expansion. */
  lemma {:induction false} ExpandFixed(args: seq<string>)
    requires forall u :: u in args ==> !IsCluster(u)
    ensures Expand(args) == args
  {
    if args != [] {
      ExpandFixed(args[1..]);
    }
  }

  /** Expanding twice is expanding once. */
  lemma ExpandIdempotent(args: seq<string>)
    ensures Expand(Expand(args)) == Expand(args)
  {
    ExpandFixed(Expand(args));
  }

  /**
   * Writing a cluster is the same as writing its short flags one by one:
   * both vectors expand to the same tokens.
   */
  lemma ExpandCluster(pre: seq<string>, t: string, post: seq<string>)
    requires IsCluster(t)
    ensures Expand(pre + [t] + post) == Expand(pre + ExpandToken(t) + post)
  {
    var e := ExpandToken(t);
    assert Expand([t]) == e by {
      assert [t][1..] == [];
    }
    ExpandFixed(e);
    calc {
      Expand(pre + [t] + post);
      { ExpandAppend(pre + [t], post); }
      Expand(pre + [t]) + Expand(post);
      { ExpandAppend(pre, [t]); }
      Expand(pre) + e + Expand(post);
      { ExpandAppend(pre, e); }
      Expand(pre + e) + Expand(post);
      { ExpandAppend(pre + e, post); }
      Expand(pre + e + post);
    }
  }
}
