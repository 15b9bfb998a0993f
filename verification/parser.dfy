/** The response parser shared by `generate.py` and `generate_singlecore.py`.
    A role template such as `[{role}] ` is cut at `{role}` into a prefix and a
    suffix; three regular expressions are built from them and the image
    placeholder:
      split:  (?=prefix\w+suffix)(?!image)   a zero-width cut before each delimiter
      role:   (?!image)prefix\w+suffix        a delimiter
      sender: (?!image)prefix(\w+)suffix      the name inside a delimiter
    Each is modelled by the function that computes what the regex engine
    returns, with `\w` read as the ASCII word characters. */
module Parser {
  import opened Wrappers
  import opened Text

  /** What the three patterns are built from. */
  datatype Grammar = Grammar(prefix: string, suffix: string, image: string)

  /** A delimiter found at some position: the captured name and the length
      of the whole match. */
  datatype Delimiter = Delimiter(name: string, length: nat)

  /** `role_format.split('{role}')` followed by `[0]` and `[1]`; a template
      without `{role}` has no second piece and indexing it raises. */
  function FromTemplate(template: string, image: string): (r: Option<Grammar>)
    ensures r.Some? <==> Contains(template, "{role}")
    ensures r.Some? ==> StartsWith(template, r.value.prefix + "{role}" + r.value.suffix)
    ensures r.Some? ==> !Contains(r.value.prefix, "{role}") && !Contains(r.value.suffix, "{role}")
    ensures r.Some? ==> r.value.image == image
    ensures r.Some? ==>
      var n := |r.value.prefix| + 6 + |r.value.suffix|;
      n <= |template| && (n == |template| || StartsWith(template[n..], "{role}"))
  {
    var pieces := SplitOn(template, "{role}");
    SplitOnSpec(template, "{role}");
    if |pieces| < 2 then None
    else
      SecondPiece(template, pieces);
      Some(Grammar(pieces[0], pieces[1], image))
  }

  /** The first two pieces of `template` split at `{role}`: the template
      opens with `pieces[0] + "{role}" + pieces[1]`, and what follows is
      either nothing or the next `{role}`. */
  lemma SecondPiece(template: string, pieces: seq<string>)
    requires |pieces| >= 2 && Join(pieces, "{role}") == template
    ensures StartsWith(template, pieces[0] + "{role}" + pieces[1])
    ensures var n := |pieces[0]| + 6 + |pieces[1]|;
      n <= |template| && (n == |template| || StartsWith(template[n..], "{role}"))
  {
    var sep := "{role}";
    assert Join(pieces, sep) == pieces[0] + sep + Join(pieces[1..], sep);
    var j := Join(pieces[1..], sep);
    var n := |pieces[0]| + 6 + |pieces[1]|;
    if |pieces| == 2 {
      assert j == pieces[1];
      assert template == pieces[0] + sep + pieces[1];
    } else {
      assert j == pieces[1] + sep + Join(pieces[2..], sep) by {
        assert pieces[1..][1..] == pieces[2..];
      }
      assert template == (pieces[0] + sep + pieces[1]) + sep + Join(pieces[2..], sep);
      assert template[n..] == sep + Join(pieces[2..], sep);
    }
    assert template[..n] == pieces[0] + sep + pieces[1];
  }

  /** Python's `\w`, read as ASCII. */
  predicate IsWordChar(c: char) {
    'a' <= c <= 'z' || 'A' <= c <= 'Z' || '0' <= c <= '9' || c == '_'
  }

  /** The length of the longest run of word characters at the start of `u`. */
  function WordRun(u: string): (n: nat)
    ensures n <= |u|
  {
    if u != [] && IsWordChar(u[0]) then 1 + WordRun(u[1..]) else 0
  }

  /** The run is made of word characters and cannot be extended. */
  lemma {:induction false} WordRunSpec(u: string)
    ensures forall k :: 0 <= k < WordRun(u) ==> IsWordChar(u[k])
    ensures WordRun(u) < |u| ==> !IsWordChar(u[WordRun(u)])
  {
    if u != [] && IsWordChar(u[0]) {
      WordRunSpec(u[1..]);
      assert forall k :: 1 <= k < WordRun(u) ==> u[k] == u[1..][k - 1];
    }
  }

  /** Greedy `\w+` followed by `suffix`: the regex engine tries the longest
      run first and backs off one character at a time. */
  function GreedyName(u: string, suffix: string, k: nat): (r: Option<nat>)
    requires k <= |u|
    ensures r.Some? ==> 1 <= r.value <= k && r.value + |suffix| <= |u|
    decreases k
  {
    if k == 0 then None
    else if StartsWith(u[k..], suffix) then Some(k)
    else GreedyName(u, suffix, k - 1)
  }

  /** The length chosen is the longest one up to `k` after which the suffix
      follows; when there is none, no length from 1 to `k` works. */
  lemma {:induction false} GreedyNameSpec(u: string, suffix: string, k: nat)
    requires k <= |u|
    ensures var r := GreedyName(u, suffix, k);
      && (r.Some? ==> StartsWith(u[r.value..], suffix))
      && (r.Some? ==> forall m :: r.value < m <= k ==> !StartsWith(u[m..], suffix))
      && (r.None? ==> forall m :: 1 <= m <= k ==> !StartsWith(u[m..], suffix))
    decreases k
  {
    if k > 0 && !StartsWith(u[k..], suffix) {
      GreedyNameSpec(u, suffix, k - 1);
    }
  }

  /** `t` opens with prefix, then `n >= 1` word characters, then suffix. */
  predicate Shaped(g: Grammar, t: string, n: nat) {
    1 <= n && |g.prefix| + n + |g.suffix| <= |t|
    && t[..|g.prefix|] == g.prefix
    && (forall k :: |g.prefix| <= k < |g.prefix| + n ==> IsWordChar(t[k]))
    && t[|g.prefix| + n..|g.prefix| + n + |g.suffix|] == g.suffix
  }

  /** The match of `(?!image)prefix(\w+)suffix` anchored at the start of `t`. */
  function MatchAt(g: Grammar, t: string): (r: Option<Delimiter>)
    ensures r.Some? ==> 1 <= r.value.length <= |t|
    ensures r.Some? ==> r.value.length == |g.prefix| + |r.value.name| + |g.suffix|
  {
    if StartsWith(t, g.image) || !StartsWith(t, g.prefix) then None
    else
      var p := |g.prefix|;
      var u := t[p..];
      match GreedyName(u, g.suffix, WordRun(u))
      case None => None
      case Some(n) => Some(Delimiter(u[..n], p + n + |g.suffix|))
  }

  /** Any shape that fits stays within the word run and is followed by the
      suffix. */
  lemma ShapedWithinRun(g: Grammar, t: string, n: nat)
    requires Shaped(g, t, n)
    ensures n <= WordRun(t[|g.prefix|..])
    ensures StartsWith(t[|g.prefix|..][n..], g.suffix)
  {
    var p := |g.prefix|;
    var u := t[p..];
    WordRunSpec(u);
    assert u[n..][..|g.suffix|] == t[p + n..p + n + |g.suffix|];
  }

  /** Conversely, a length within the word run that the suffix follows fits. */
  lemma ShapedFromRun(g: Grammar, t: string, n: nat)
    requires StartsWith(t, g.prefix)
    requires 1 <= n <= WordRun(t[|g.prefix|..])
    requires StartsWith(t[|g.prefix|..][n..], g.suffix)
    ensures Shaped(g, t, n)
  {
    var p := |g.prefix|;
    var u := t[p..];
    WordRunSpec(u);
    assert u[n..][..|g.suffix|] == t[p + n..p + n + |g.suffix|];
    assert forall k :: p <= k < p + n ==> t[k] == u[k - p];
  }

  /** A delimiter starts at the beginning of `t` exactly when the image
      placeholder does not and some name length fits the shape; the name
      captured is the longest that fits, lying right after the prefix. */
  lemma MatchAtSpec(g: Grammar, t: string)
    ensures MatchAt(g, t).Some? <==> !StartsWith(t, g.image) && exists n: nat :: Shaped(g, t, n)
    ensures MatchAt(g, t).Some? ==>
      var name := MatchAt(g, t).value.name;
      Shaped(g, t, |name|) && name == t[|g.prefix|..|g.prefix| + |name|]
      && forall n: nat :: Shaped(g, t, n) ==> n <= |name|
  {
    if StartsWith(t, g.image) {
    } else if !StartsWith(t, g.prefix) {
      assert forall n: nat :: !Shaped(g, t, n);
    } else {
      MatchAtPrefixed(g, t);
    }
  }

  /** `MatchAtSpec` where `t` starts with the prefix and not with the image
      placeholder: the greedy name decides. */
  lemma MatchAtPrefixed(g: Grammar, t: string)
    requires !StartsWith(t, g.image) && StartsWith(t, g.prefix)
    ensures MatchAt(g, t).Some? <==> exists n: nat :: Shaped(g, t, n)
    ensures MatchAt(g, t).Some? ==>
      var name := MatchAt(g, t).value.name;
      Shaped(g, t, |name|) && name == t[|g.prefix|..|g.prefix| + |name|]
      && forall n: nat :: Shaped(g, t, n) ==> n <= |name|
  {
    var u := t[|g.prefix|..];
    match GreedyName(u, g.suffix, WordRun(u))
    case None =>
      NoGreedyName(g, t);
    case Some(n) =>
      GreedyNameFits(g, t, n);
      assert MatchAt(g, t).value.name == u[..n];
  }

  /** Without a greedy name, no length fits the shape. */
  lemma NoGreedyName(g: Grammar, t: string)
    requires StartsWith(t, g.prefix)
    requires GreedyName(t[|g.prefix|..], g.suffix, WordRun(t[|g.prefix|..])).None?
    ensures forall n: nat :: !Shaped(g, t, n)
  {
    var u := t[|g.prefix|..];
    GreedyNameSpec(u, g.suffix, WordRun(u));
    forall n: nat | Shaped(g, t, n) ensures false {
      ShapedWithinRun(g, t, n);
    }
  }

  /** The greedy name fits the shape, is the longest that does, and is the
      text right after the prefix. */
  lemma GreedyNameFits(g: Grammar, t: string, n: nat)
    requires StartsWith(t, g.prefix)
    requires GreedyName(t[|g.prefix|..], g.suffix, WordRun(t[|g.prefix|..])) == Some(n)
    ensures Shaped(g, t, n)
    ensures t[|g.prefix|..][..n] == t[|g.prefix|..|g.prefix| + n]
    ensures forall m: nat :: Shaped(g, t, m) ==> m <= n
  {
    var p := |g.prefix|;
    var u := t[p..];
    GreedyNameSpec(u, g.suffix, WordRun(u));
    ShapedFromRun(g, t, n);
    forall m: nat | Shaped(g, t, m) ensures m <= n {
      ShapedWithinRun(g, t, m);
    }
    assert u[..n] == t[p..p + n];
  }

  /** A split point: a position where the split pattern's lookaheads succeed,
      i.e. a delimiter starts and the image placeholder does not. */
  predicate IsDelimiterAt(g: Grammar, t: string) {
    MatchAt(g, t).Some?
  }

  // ---------------------------------------------------------------------------
  // re.split(split_pattern, s)

  /** Positions in strictly increasing order. */
  predicate Increasing(ps: seq<nat>) {
    forall k :: 0 <= k < |ps| - 1 ==> ps[k] < ps[k + 1]
  }

  /** The split points of `s` at or after `i`, in order: every position where
      the zero-width split pattern matches. */
  function CutsFrom(g: Grammar, s: string, i: nat): (r: seq<nat>)
    requires i <= |s|
    ensures |r| <= |s| - i
    decreases |s| - i
  {
    if i == |s| then []
    else
      var rest := CutsFrom(g, s, i + 1);
      if IsDelimiterAt(g, s[i..]) then [i] + rest else rest
  }

  /** The split points lie in `s` from `i` on, in strictly increasing order. */
  lemma {:induction false} CutsFromRange(g: Grammar, s: string, i: nat)
    requires i <= |s|
    ensures forall k :: 0 <= k < |CutsFrom(g, s, i)| ==> i <= CutsFrom(g, s, i)[k] < |s|
    ensures Increasing(CutsFrom(g, s, i))
    decreases |s| - i
  {
    if i < |s| {
      var rest := CutsFrom(g, s, i + 1);
      CutsFromRange(g, s, i + 1);
      if IsDelimiterAt(g, s[i..]) {
        PrependCut(i, rest, |s|);
      }
    }
  }

  /** Putting `i` in front of increasing positions from `i + 1` on keeps
      them increasing. */
  lemma PrependCut(i: nat, rest: seq<nat>, n: nat)
    requires i < n
    requires forall k :: 0 <= k < |rest| ==> i + 1 <= rest[k] < n
    requires Increasing(rest)
    ensures forall k :: 0 <= k < |[i] + rest| ==> i <= ([i] + rest)[k] < n
    ensures Increasing([i] + rest)
  {
    assert forall k :: 0 <= k < |rest| ==> ([i] + rest)[k + 1] == rest[k];
  }

  /** The split points found are exactly the positions from `i` on where a
      delimiter starts. */
  lemma {:induction false} CutsFromSpec(g: Grammar, s: string, i: nat)
    requires i <= |s|
    ensures forall p :: p in CutsFrom(g, s, i) <==> i <= p < |s| && IsDelimiterAt(g, s[p..])
    decreases |s| - i
  {
    if i < |s| {
      var rest := CutsFrom(g, s, i + 1);
      CutsFromSpec(g, s, i + 1);
      forall p ensures p in CutsFrom(g, s, i) <==> i <= p < |s| && IsDelimiterAt(g, s[p..]) {
        if IsDelimiterAt(g, s[i..]) {
          assert CutsFrom(g, s, i) == [i] + rest;
        } else {
          assert CutsFrom(g, s, i) == rest;
        }
      }
    }
  }

  /** Bounds that can cut `s`: within it and never decreasing. */
  predicate Ordered(s: string, bounds: seq<nat>) {
    && (forall k :: 0 <= k < |bounds| ==> bounds[k] <= |s|)
    && (forall k :: 0 <= k < |bounds| - 1 ==> bounds[k] <= bounds[k + 1])
  }

  /** The slices of `s` between consecutive bounds. */
  function Pieces(s: string, bounds: seq<nat>): (r: seq<string>)
    ensures |r| == if bounds == [] then 0 else |bounds| - 1
  {
    if |bounds| < 2 then [] else [Slice(s, bounds[0], bounds[1])] + Pieces(s, bounds[1..])
  }

  /** `s[i..j]` where that is a slice of `s`, empty otherwise. */
  function Slice(s: string, i: nat, j: nat): (r: string)
    ensures i <= j <= |s| ==> r == s[i..j]
  {
    if i <= j <= |s| then s[i..j] else []
  }

  /** Each piece is the slice between its two bounds. */
  lemma {:induction false} PiecesSpec(s: string, bounds: seq<nat>)
    requires Ordered(s, bounds)
    ensures forall k :: 0 <= k < |Pieces(s, bounds)| ==> Pieces(s, bounds)[k] == s[bounds[k]..bounds[k + 1]]
    decreases |bounds|
  {
    if |bounds| >= 2 {
      PiecesSpec(s, bounds[1..]);
    }
  }

  lemma {:induction false} PiecesFlatten(s: string, bounds: seq<nat>)
    requires |bounds| >= 1 && Ordered(s, bounds)
    ensures bounds[0] <= bounds[|bounds| - 1]
    ensures Flatten(Pieces(s, bounds)) == s[bounds[0]..bounds[|bounds| - 1]]
  {
    if |bounds| == 1 {
    } else {
      PiecesFlatten(s, bounds[1..]);
      assert s[bounds[0]..bounds[|bounds| - 1]] == s[bounds[0]..bounds[1]] + s[bounds[1]..bounds[|bounds| - 1]];
    }
  }

  /** The bounds of the fragments: the start, every split point, the end. */
  function Bounds(g: Grammar, s: string): (r: seq<nat>)
    ensures |r| >= 2 && r[0] == 0 && r[|r| - 1] == |s|
  {
    [0] + CutsFrom(g, s, 0) + [|s|]
  }

  /** The bounds can cut `s`, and between the two ends they are the split
      points. */
  lemma BoundsSpec(g: Grammar, s: string)
    ensures Ordered(s, Bounds(g, s))
    ensures Bounds(g, s)[1..|Bounds(g, s)| - 1] == CutsFrom(g, s, 0)
  {
    var r := Bounds(g, s);
    var cuts := CutsFrom(g, s, 0);
    CutsFromRange(g, s, 0);
    assert r[1..|r| - 1] == cuts;
    forall k | 0 <= k < |r| - 1 ensures r[k] <= r[k + 1] {
      if 0 < k < |r| - 2 {
        assert r[k] == cuts[k - 1] && r[k + 1] == cuts[k];
      }
    }
  }

  /** `re.split(split_pattern, s)`: `s` cut before every split point. A split
      point at position 0 yields an empty first fragment, as in Python 3.7+. */
  function Fragments(g: Grammar, s: string): (r: seq<string>)
    ensures |r| >= 1
  {
    Pieces(s, Bounds(g, s))
  }

  /** Splitting loses nothing, cuts exactly at the split points, and leaves
      an empty first fragment exactly when `s` is empty or itself begins at a
      split point. */
  lemma FragmentsSpec(g: Grammar, s: string)
    ensures Flatten(Fragments(g, s)) == s
    ensures forall p: nat :: p in Bounds(g, s)[1..|Bounds(g, s)| - 1] <==> p < |s| && IsDelimiterAt(g, s[p..])
    ensures Ordered(s, Bounds(g, s))
    ensures forall k :: 0 <= k < |Fragments(g, s)| ==>
      Fragments(g, s)[k] == s[Bounds(g, s)[k]..Bounds(g, s)[k + 1]]
    ensures Fragments(g, s)[0] == [] <==> s == [] || IsDelimiterAt(g, s)
  {
    var b := Bounds(g, s);
    var cuts := CutsFrom(g, s, 0);
    BoundsSpec(g, s);
    CutsFromSpec(g, s, 0);
    CutsFromRange(g, s, 0);
    PiecesSpec(s, b);
    PiecesFlatten(s, b);
    assert s[0..|s|] == s;
    if s != [] && IsDelimiterAt(g, s) {
      assert 0 in cuts;
      assert cuts[0] == 0;
    }
    if s != [] && !IsDelimiterAt(g, s) && cuts != [] {
      assert cuts[0] in cuts;
    }
  }

  // ---------------------------------------------------------------------------
  // re.search(role_pattern, t), re.search(sender_pattern, t)

  /** The leftmost delimiter in `t`: its position and the match there. */
  function FindDelimiter(g: Grammar, t: string): (r: Option<(nat, Delimiter)>)
    ensures r.Some? ==> r.value.0 < |t| && MatchAt(g, t[r.value.0..]) == Some(r.value.1)
    decreases |t|
  {
    if t == [] then None
    else match MatchAt(g, t)
      case Some(d) => Some((0, d))
      case None =>
        match FindDelimiter(g, t[1..])
        case None => None
        case Some((i, d)) =>
          assert t[1..][i..] == t[i + 1..];
          Some((i + 1, d))
  }

  /** The search finds the leftmost position where a delimiter starts, and
      comes back empty only when there is none. */
  lemma {:induction false} FindDelimiterSpec(g: Grammar, t: string)
    ensures FindDelimiter(g, t).Some? ==> forall j :: 0 <= j < FindDelimiter(g, t).value.0 ==> !IsDelimiterAt(g, t[j..])
    ensures FindDelimiter(g, t).None? ==> forall j :: 0 <= j < |t| ==> !IsDelimiterAt(g, t[j..])
    decreases |t|
  {
    if t != [] && MatchAt(g, t).None? {
      FindDelimiterSpec(g, t[1..]);
      assert forall j :: 1 <= j < |t| ==> t[j..] == t[1..][j - 1..];
    }
  }

  /** `re.search(role_pattern, t) is not None`. */
  predicate HasDelimiter(g: Grammar, t: string) {
    FindDelimiter(g, t).Some?
  }

  /** `re.search(sender_pattern, t).group('sender').lower()`; the search
      coming back empty is the AttributeError the source would raise. The
      sender is the lower-cased name of the leftmost delimiter. */
  function FirstSender(g: Grammar, t: string): (r: Option<string>)
    ensures r.Some? <==> HasDelimiter(g, t)
    ensures r.Some? ==> forall k :: 0 <= k < |r.value| ==> !('A' <= r.value[k] <= 'Z')
  {
    match FindDelimiter(g, t)
    case None => None
    case Some((i, d)) => Some(Lower(d.name))
  }

  /** The sender is the lower-cased name captured by the delimiter at the
      leftmost split point of `t`; there is none exactly when no delimiter
      starts anywhere in `t`. */
  lemma FirstSenderSpec(g: Grammar, t: string)
    ensures FirstSender(g, t).None? <==> forall j :: 0 <= j < |t| ==> !IsDelimiterAt(g, t[j..])
    ensures FirstSender(g, t).Some? ==>
      exists i :: (0 <= i < |t|
        && IsDelimiterAt(g, t[i..])
        && (forall j :: 0 <= j < i ==> !IsDelimiterAt(g, t[j..]))
        && FirstSender(g, t).value == Lower(MatchAt(g, t[i..]).value.name))
  {
    FindDelimiterSpec(g, t);
    match FindDelimiter(g, t)
    case None =>
    case Some((i, d)) =>
      assert IsDelimiterAt(g, t[i..]);
  }

  // ---------------------------------------------------------------------------
  // re.sub(role_pattern, '', t)

  /** Every delimiter removed, scanning left to right and resuming after each
      match, as `re.sub` does; the text changes exactly when the role search
      would find something. */
  function StripDelimiters(g: Grammar, t: string): (r: string)
    ensures |r| <= |t|
    decreases |t|
  {
    if t == [] then []
    else match MatchAt(g, t)
      case Some(d) => StripDelimiters(g, t[d.length..])
      case None => [t[0]] + StripDelimiters(g, t[1..])
  }

  /** The text changes exactly when the role search would find something. */
  lemma {:induction false} StripDelimitersSpec(g: Grammar, t: string)
    ensures StripDelimiters(g, t) == t <==> !HasDelimiter(g, t)
    decreases |t|
  {
    if t != [] {
      if MatchAt(g, t).Some? {
        StripMatched(g, t);
      } else {
        StripDelimitersSpec(g, t[1..]);
        StripUnmatched(g, t);
      }
    }
  }

  /** Where a delimiter starts the text, it is removed and found. */
  lemma StripMatched(g: Grammar, t: string)
    requires t != [] && MatchAt(g, t).Some?
    ensures StripDelimiters(g, t) != t && HasDelimiter(g, t)
  {
    var d := MatchAt(g, t).value;
    assert |StripDelimiters(g, t)| <= |t| - d.length < |t|;
  }

  /** Where no delimiter starts the text, its first character stays and the
      search looks further on. */
  lemma StripUnmatched(g: Grammar, t: string)
    requires t != [] && MatchAt(g, t).None?
    ensures StripDelimiters(g, t) == [t[0]] + StripDelimiters(g, t[1..])
    ensures HasDelimiter(g, t) <==> HasDelimiter(g, t[1..])
    ensures StripDelimiters(g, t) == t <==> StripDelimiters(g, t[1..]) == t[1..]
  {
    assert t == [t[0]] + t[1..];
  }

  /** `re.sub(role_pattern, '', t).strip()`: the message text of a fragment. */
  function MessageText(g: Grammar, t: string): (r: string)
    ensures r != [] ==> !IsSpace(r[0]) && !IsSpace(r[|r| - 1])
    ensures |r| <= |t|
  {
    Strip(StripDelimiters(g, t))
  }

  /** Without a delimiter the message text is the fragment, stripped. */
  lemma MessageTextSpec(g: Grammar, t: string)
    ensures !HasDelimiter(g, t) ==> MessageText(g, t) == Strip(t)
  {
    StripDelimitersSpec(g, t);
  }

  // ---------------------------------------------------------------------------
  // the list comprehension that keeps valid responses

  /** As written: a fragment is kept when the UNSTRIPPED fragment contains a
      delimiter, and what is kept is the fragment stripped of spaces. */
  function KeptAsWritten(g: Grammar, fragments: seq<string>): (r: seq<string>)
    ensures |r| <= |fragments|
  {
    if fragments == [] then []
    else
      (if HasDelimiter(g, fragments[0]) then [StripBlanks(fragments[0])] else [])
      + KeptAsWritten(g, fragments[1..])
  }

  /** Corrected: the delimiter test runs on the stripped fragment, the string
      that the sender search is later applied to. */
  function Kept(g: Grammar, fragments: seq<string>): (r: seq<string>)
    ensures |r| <= |fragments|
  {
    if fragments == [] then []
    else
      var f := StripBlanks(fragments[0]);
      var rest := Kept(g, fragments[1..]);
      (if HasDelimiter(g, f) then [f] else []) + rest
  }

  /** Everything kept still holds a delimiter. */
  lemma {:induction false} KeptSound(g: Grammar, fragments: seq<string>)
    ensures forall x :: x in Kept(g, fragments) ==> HasDelimiter(g, x)
    decreases |fragments|
  {
    if fragments != [] {
      KeptSound(g, fragments[1..]);
    }
  }

  /** Nothing valid is lost: every fragment that still holds a delimiter
      after stripping is kept. */
  lemma {:induction false} KeptComplete(g: Grammar, fragments: seq<string>, k: nat)
    requires k < |fragments| && HasDelimiter(g, StripBlanks(fragments[k]))
    ensures StripBlanks(fragments[k]) in Kept(g, fragments)
  {
    var f := StripBlanks(fragments[0]);
    var rest := Kept(g, fragments[1..]);
    assert Kept(g, fragments) == (if HasDelimiter(g, f) then [f] else []) + rest;
    if k > 0 {
      assert fragments[k] == fragments[1..][k - 1];
      KeptComplete(g, fragments[1..], k - 1);
    }
  }

  /** What the as-written filter keeps first: nothing exactly when no
      fragment holds a delimiter, and otherwise the first fragment that holds
      one, stripped of spaces (which may strip the delimiter's own suffix). */
  lemma {:induction false} KeptAsWrittenFirst(g: Grammar, fragments: seq<string>)
    ensures KeptAsWritten(g, fragments) == [] <==> forall k :: 0 <= k < |fragments| ==> !HasDelimiter(g, fragments[k])
    ensures KeptAsWritten(g, fragments) != [] ==>
      exists k :: 0 <= k < |fragments| && HasDelimiter(g, fragments[k])
        && (forall j :: 0 <= j < k ==> !HasDelimiter(g, fragments[j]))
        && KeptAsWritten(g, fragments)[0] == StripBlanks(fragments[k])
    decreases |fragments|
  {
    if fragments != [] {
      var rest := fragments[1..];
      KeptAsWrittenFirst(g, rest);
      assert forall k :: 1 <= k < |fragments| ==> fragments[k] == rest[k - 1];
      if !HasDelimiter(g, fragments[0]) {
        assert KeptAsWritten(g, fragments) == KeptAsWritten(g, rest);
        if KeptAsWritten(g, rest) != [] {
          var k :| 0 <= k < |rest| && HasDelimiter(g, rest[k])
            && (forall j :: 0 <= j < k ==> !HasDelimiter(g, rest[j]))
            && KeptAsWritten(g, rest)[0] == StripBlanks(rest[k]);
          assert HasDelimiter(g, fragments[k + 1]);
        } else {
          forall k | 0 <= k < |fragments| ensures !HasDelimiter(g, fragments[k]) {
            if k > 0 {
              assert fragments[k] == rest[k - 1];
            }
          }
        }
      }
    }
  }

  /** The responses of a raw continuation as the generators compute them:
      split, filtered on the unstripped fragment, then stripped. */
  function Responses(g: Grammar, s: string): seq<string> {
    KeptAsWritten(g, Fragments(g, s))
  }

  /** The responses the filter is evidently meant to keep: split, stripped,
      then filtered. */
  function IntendedResponses(g: Grammar, s: string): seq<string> {
    Kept(g, Fragments(g, s))
  }

  /** Every response the corrected filter keeps yields a sender, so the
      sender search after it never comes back empty. */
  lemma {:induction false} IntendedResponsesHaveSender(g: Grammar, s: string)
    ensures forall x :: x in IntendedResponses(g, s) ==> FirstSender(g, x).Some?
  {
    KeptSound(g, Fragments(g, s));
  }

  /** The bracket template `[{role}] ` with the `[IMG]` placeholder. */
  const Brackets := Grammar("[", "] ", "[IMG]")

  /** Where the text does not open with the prefix, no delimiter starts. */
  lemma NoDelimiterWithoutPrefix(g: Grammar, t: string)
    requires !StartsWith(t, g.prefix)
    ensures !IsDelimiterAt(g, t)
  {
  }

  /** `[B] ` is one delimiter with nothing after it. */
  lemma TrailingDelimiterSplit()
    ensures MatchAt(Brackets, "[B] ") == Some(Delimiter("B", 4))
    ensures Fragments(Brackets, "[B] ") == ["", "[B] "]
    ensures StripBlanks("[B] ") == "[B]"
  {
    var g := Brackets;
    var s := "[B] ";
    assert WordRun(s[1..]) == 1 by {
      assert s[1..] == "B] ";
      assert WordRun("B] ") == 1 + WordRun("] ");
    }
    assert s[1..][1..] == "] ";
    assert GreedyName(s[1..], "] ", 1) == Some(1);
    assert !StartsWith(s, g.image);
    assert s[0..1] == g.prefix;
    assert s[1..][..1] == "B";
    assert MatchAt(g, s) == Some(Delimiter("B", 4));
    NoDelimiterWithoutPrefix(g, s[1..]);
    NoDelimiterWithoutPrefix(g, s[2..]);
    NoDelimiterWithoutPrefix(g, s[3..]);
    assert CutsFrom(g, s, 1) == [] by {
      assert CutsFrom(g, s, 3) == [] by { assert CutsFrom(g, s, 4) == []; }
      assert CutsFrom(g, s, 2) == [];
    }
    assert CutsFrom(g, s, 0) == [0];
    assert Bounds(g, s) == [0, 0, 4];
    assert Pieces(s, [0, 0, 4]) == [s[0..0]] + Pieces(s, [0, 4]);
    assert Pieces(s, [0, 4]) == [s[0..4]] + Pieces(s, [4]);
    assert s[0..0] == "" && s[0..4] == s;
    assert Fragments(g, s) == Pieces(s, [0, 0, 4]);
    assert TrimLeft(s, IsBlank) == s;
    assert TrimRight(s, IsBlank) == TrimRight(s[..3], IsBlank);
    assert s[..3] == "[B]";
  }

  /** `[B]` has lost the space its suffix needs: no delimiter remains. */
  lemma StrippedDelimiterGone()
    ensures !HasDelimiter(Brackets, "[B]")
  {
    var g := Brackets;
    var t := "[B]";
    assert WordRun(t[1..]) == 1 by {
      assert t[1..] == "B]";
      assert WordRun("B]") == 1 + WordRun("]");
    }
    assert GreedyName(t[1..], "] ", 1) == None;
    assert !IsDelimiterAt(g, t);
    NoDelimiterWithoutPrefix(g, t[1..]);
    NoDelimiterWithoutPrefix(g, t[2..]);
    FindDelimiterSpec(g, t);
  }

  /** The discrepancy in the as-written filter: with the template `[{role}] `,
      a continuation that ends right after a delimiter keeps the fragment
      `[B] `, stripping turns it into `[B]`, and the sender search on `[B]`
      finds nothing (the source then raises AttributeError). The corrected
      filter keeps nothing, and a new prompt is drawn instead. */
  lemma TrailingDelimiterLost()
    ensures Responses(Brackets, "[B] ") == ["[B]"]
    ensures FirstSender(Brackets, Responses(Brackets, "[B] ")[0]).None?
    ensures IntendedResponses(Brackets, "[B] ") == []
  {
    var g := Brackets;
    var s := "[B] ";
    TrailingDelimiterSplit();
    StrippedDelimiterGone();
    FindDelimiterSpec(g, "");
    assert !HasDelimiter(g, "");
    assert HasDelimiter(g, s) by { assert FindDelimiter(g, s) == Some((0, Delimiter("B", 4))); }
    assert ["", s][1..] == [s];
    assert KeptAsWritten(g, ["", s]) == KeptAsWritten(g, [s]);
    assert KeptAsWritten(g, [s]) == ["[B]"] + KeptAsWritten(g, []);
    assert StripBlanks("") == "";
    assert Kept(g, ["", s]) == Kept(g, [s]);
    assert Kept(g, [s]) == Kept(g, []);
  }
}
