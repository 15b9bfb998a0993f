/** The Python string operations the generator scripts rely on: `str.strip`,
    `str.split(sep)`, `str.replace(old, '')`, `re.sub(r'  +', ' ', s)`,
    `in`, `lower` and `upper`. */
module Text {
  import opened Wrappers

  /** Characters for which Python's `str.isspace()` holds, i.e. what
      `str.strip()` with no argument removes. */
  predicate IsSpace(c: char) {
    c == ' ' || '\t' <= c <= '\r' || '\U{1c}' <= c <= '\U{1f}'
    || c == '\U{85}' || c == '\U{a0}' || c == '\U{1680}'
    || '\U{2000}' <= c <= '\U{200a}' || c == '\U{2028}' || c == '\U{2029}'
    || c == '\U{202f}' || c == '\U{205f}' || c == '\U{3000}'
  }

  /** The single character `strip(' ')` removes. */
  predicate IsBlank(c: char) {
    c == ' '
  }

  // ---------------------------------------------------------------------------
  // strip

  /** `s` without its leading run of `drop` characters. */
  function TrimLeft(s: string, drop: char -> bool): (r: string)
    ensures |r| <= |s| && r == s[|s| - |r|..]
    ensures r != [] ==> !drop(r[0])
  {
    if s != [] && drop(s[0]) then TrimLeft(s[1..], drop) else s
  }

  /** Only `drop` characters are cut from the front. */
  lemma {:induction false} TrimLeftSpec(s: string, drop: char -> bool)
    ensures forall k :: 0 <= k < |s| - |TrimLeft(s, drop)| ==> drop(s[k])
    decreases |s|
  {
    if s != [] && drop(s[0]) {
      TrimLeftSpec(s[1..], drop);
      forall k | 0 <= k < |s| - |TrimLeft(s, drop)| ensures drop(s[k]) {
        if k > 0 {
          assert s[k] == s[1..][k - 1];
        }
      }
    }
  }

  /** `s` without its trailing run of `drop` characters. */
  function TrimRight(s: string, drop: char -> bool): (r: string)
    ensures |r| <= |s| && r == s[..|r|]
    ensures r != [] ==> !drop(r[|r| - 1])
  {
    if s != [] && drop(s[|s| - 1]) then TrimRight(s[..|s| - 1], drop) else s
  }

  /** Only `drop` characters are cut from the back. */
  lemma {:induction false} TrimRightSpec(s: string, drop: char -> bool)
    ensures forall k :: |TrimRight(s, drop)| <= k < |s| ==> drop(s[k])
    decreases |s|
  {
    if s != [] && drop(s[|s| - 1]) {
      var p := s[..|s| - 1];
      TrimRightSpec(p, drop);
      forall k | |TrimRight(s, drop)| <= k < |s| ensures drop(s[k]) {
        if k < |s| - 1 {
          assert s[k] == p[k];
        }
      }
    }
  }

  /** `r` is the slice of `s` at `i`, and everything around it is `drop`. */
  ghost predicate TrimmedAt(s: string, r: string, drop: char -> bool, i: nat) {
    i + |r| <= |s| && r == s[i..i + |r|]
    && (forall k :: 0 <= k < i ==> drop(s[k]))
    && (forall k :: i + |r| <= k < |s| ==> drop(s[k]))
  }

  /** `r` is `s` with a run of `drop` characters cut from each end. */
  ghost predicate Trimmed(s: string, r: string, drop: char -> bool) {
    exists i: nat :: TrimmedAt(s, r, drop, i)
  }

  /** Python's `s.strip(chars)`: the longest slice of `s` that neither starts
      nor ends with a character to drop. */
  function StripWith(s: string, drop: char -> bool): (r: string)
    ensures |r| <= |s|
    ensures r != [] ==> !drop(r[0]) && !drop(r[|r| - 1])
  {
    var l := TrimLeft(s, drop);
    var r := TrimRight(l, drop);
    assert r != [] ==> r[0] == l[0];
    r
  }

  /** What is left is a slice of `s` with only `drop` characters around it. */
  lemma StripWithSpec(s: string, drop: char -> bool)
    ensures Trimmed(s, StripWith(s, drop), drop)
  {
    var l := TrimLeft(s, drop);
    var r := TrimRight(l, drop);
    TrimLeftSpec(s, drop);
    TrimRightSpec(l, drop);
    var i := |s| - |l|;
    assert r == s[i..i + |r|] by {
      assert l == s[i..];
      assert r == l[..|r|];
    }
    forall k | i + |r| <= k < |s| ensures drop(s[k]) {
      assert s[k] == l[k - i];
    }
    assert TrimmedAt(s, r, drop, i);
  }

  /** Python's `s.strip()`. */
  function Strip(s: string): string {
    StripWith(s, IsSpace)
  }

  /** Python's `s.strip(' ')`: only spaces go, newlines and tabs stay. */
  function StripBlanks(s: string): string {
    StripWith(s, IsBlank)
  }

  // ---------------------------------------------------------------------------
  // searching

  predicate OccursAt(s: string, pat: string, i: nat) {
    i + |pat| <= |s| && s[i..i + |pat|] == pat
  }

  predicate StartsWith(s: string, pat: string) {
    OccursAt(s, pat, 0)
  }

  /** The first occurrence of `pat` in `s` at or after `i`. */
  function IndexFrom(s: string, pat: string, i: nat): (r: Option<nat>)
    ensures r.Some? ==> i <= r.value && OccursAt(s, pat, r.value)
    decreases |s| - i
  {
    if i + |pat| > |s| then None
    else if s[i..i + |pat|] == pat then Some(i)
    else IndexFrom(s, pat, i + 1)
  }

  /** Searching on from a point before which `pat` does not occur finds the
      leftmost occurrence, and finds none only when there is none. */
  lemma {:induction false} IndexFromSpec(s: string, pat: string, i: nat)
    requires forall j :: 0 <= j < i ==> !OccursAt(s, pat, j)
    ensures IndexFrom(s, pat, i).Some? ==> forall j :: 0 <= j < IndexFrom(s, pat, i).value ==> !OccursAt(s, pat, j)
    ensures IndexFrom(s, pat, i).None? ==> forall j :: 0 <= j ==> !OccursAt(s, pat, j)
    decreases |s| - i
  {
    if i + |pat| <= |s| && s[i..i + |pat|] != pat {
      IndexFromSpec(s, pat, i + 1);
    }
  }

  /** Python's `s.find(pat)`, as an Option. */
  function IndexOf(s: string, pat: string): (r: Option<nat>)
    ensures r.Some? ==> OccursAt(s, pat, r.value)
  {
    IndexFrom(s, pat, 0)
  }

  /** The occurrence found is the leftmost one; none is found only when
      `pat` occurs nowhere. */
  lemma IndexOfSpec(s: string, pat: string)
    ensures IndexOf(s, pat).Some? ==> forall j :: 0 <= j < IndexOf(s, pat).value ==> !OccursAt(s, pat, j)
    ensures IndexOf(s, pat).None? ==> forall j :: 0 <= j ==> !OccursAt(s, pat, j)
  {
    IndexFromSpec(s, pat, 0);
  }

  /** Python's `pat in s` (true for the empty pattern). */
  predicate Contains(s: string, pat: string) {
    IndexOf(s, pat).Some?
  }

  // ---------------------------------------------------------------------------
  // split, join, replace

  /** Python's `s.split(sep)` for a non-empty separator. */
  function SplitOn(s: string, sep: string): (r: seq<string>)
    requires |sep| > 0
    ensures |r| >= 1
    ensures |r| == 1 <==> !Contains(s, sep)
    ensures Join(r, sep) == s
    decreases |s|
  {
    match IndexOf(s, sep)
    case None => [s]
    case Some(i) =>
      var head := s[..i];
      var tail := s[i + |sep|..];
      var rest := SplitOn(tail, sep);
      JoinCons(head, rest, sep);
      Around(s, sep, i);
      [head] + rest
  }

  /** Joining a piece in front of at least one other puts the separator
      between it and the join of the others. */
  lemma JoinCons(head: string, rest: seq<string>, sep: string)
    requires |rest| >= 1
    ensures Join([head] + rest, sep) == head + sep + Join(rest, sep)
  {
    assert ([head] + rest)[1..] == rest;
  }

  /** A string is what precedes an occurrence, the occurrence and what
      follows it. */
  lemma Around(s: string, pat: string, i: nat)
    requires OccursAt(s, pat, i)
    ensures s == s[..i] + pat + s[i + |pat|..]
  {
    assert s[i..] == s[i..i + |pat|] + s[i + |pat|..];
    assert s == s[..i] + s[i..];
  }

  /** No piece contains the separator. */
  lemma {:induction false} SplitOnSpec(s: string, sep: string)
    requires |sep| > 0
    ensures forall k :: 0 <= k < |SplitOn(s, sep)| ==> !Contains(SplitOn(s, sep)[k], sep)
    decreases |s|
  {
    IndexOfSpec(s, sep);
    match IndexOf(s, sep)
    case None =>
    case Some(i) =>
      var head := s[..i];
      PrefixLacks(s, sep, i);
      var rest := SplitOn(s[i + |sep|..], sep);
      SplitOnSpec(s[i + |sep|..], sep);
      assert SplitOn(s, sep) == [head] + rest;
      forall k | 0 <= k < |SplitOn(s, sep)| ensures !Contains(SplitOn(s, sep)[k], sep) {
        if k > 0 {
          assert SplitOn(s, sep)[k] == rest[k - 1];
        }
      }
  }

  /** A prefix before the first occurrence of `pat` does not contain it. */
  lemma PrefixLacks(s: string, pat: string, i: nat)
    requires |pat| > 0 && i <= |s|
    requires forall j :: 0 <= j < i ==> !OccursAt(s, pat, j)
    ensures !Contains(s[..i], pat)
  {
    var head := s[..i];
    forall j | 0 <= j ensures !OccursAt(head, pat, j) {
      if j + |pat| <= |head| {
        PrefixSlice(s, i, j, j + |pat|);
        assert !OccursAt(s, pat, j);
      }
    }
  }

  lemma PrefixSlice(s: string, n: nat, i: nat, j: nat)
    requires i <= j <= n <= |s|
    ensures s[..n][i..j] == s[i..j]
  {
    assert forall m :: 0 <= m < j - i ==> s[..n][i..j][m] == s[i + m];
  }

  /** Python's `sep.join(parts)`. */
  function Join(parts: seq<string>, sep: string): string {
    if parts == [] then []
    else if |parts| == 1 then parts[0]
    else parts[0] + sep + Join(parts[1..], sep)
  }

  /** Python's `''.join(parts)`. */
  function Flatten(parts: seq<string>): string {
    if parts == [] then [] else parts[0] + Flatten(parts[1..])
  }

  lemma {:induction false} FlattenAppend(a: seq<string>, b: seq<string>)
    ensures Flatten(a + b) == Flatten(a) + Flatten(b)
  {
    if a == [] {
      assert a + b == b;
    } else {
      assert (a + b)[1..] == a[1..] + b;
      FlattenAppend(a[1..], b);
    }
  }

  lemma {:induction false} JoinLength(parts: seq<string>, sep: string)
    requires |parts| >= 1
    ensures |Join(parts, sep)| >= |Flatten(parts)|
    ensures |parts| >= 2 ==> |Join(parts, sep)| >= |Flatten(parts)| + |sep|
  {
    if |parts| >= 2 {
      JoinLength(parts[1..], sep);
    }
  }

  /** Python's `s.replace(pat, '')`: every leftmost non-overlapping occurrence
      of `pat` removed; with an empty pattern nothing changes. */
  function RemoveAll(s: string, pat: string): (r: string)
    ensures |r| <= |s|
    ensures |pat| > 0 ==> (r == s <==> !Contains(s, pat))
  {
    if pat == [] then s
    else
      var parts := SplitOn(s, pat);
      JoinLength(parts, pat);
      if |parts| == 1 then parts[0] else Flatten(parts)
  }

  // ---------------------------------------------------------------------------
  // collapsing space runs

  /** No two adjacent spaces. */
  predicate NoDoubleSpace(s: string) {
    forall i :: 0 <= i < |s| - 1 ==> !(s[i] == ' ' && s[i + 1] == ' ')
  }

  /** Python's `re.sub(r'  +', ' ', s)`: every run of two or more spaces
      becomes one space (so every maximal run of spaces becomes one space). */
  function CollapseSpaces(s: string): (r: string)
    ensures r != [] <==> s != []
    ensures r != [] ==> (r[0] == ' ' <==> s[0] == ' ')
    ensures |r| <= |s|
    decreases |s|
  {
    if s == [] then []
    else if s[0] == ' ' then [' '] + CollapseSpaces(TrimLeft(s, IsBlank))
    else [s[0]] + CollapseSpaces(s[1..])
  }

  /** No two spaces are left adjacent. */
  lemma {:induction false} CollapseSpacesSpec(s: string)
    ensures NoDoubleSpace(CollapseSpaces(s))
    decreases |s|
  {
    if s != [] {
      var rest := if s[0] == ' ' then TrimLeft(s, IsBlank) else s[1..];
      CollapseSpacesSpec(rest);
      var c := CollapseSpaces(rest);
      var r := [s[0]] + c;
      assert CollapseSpaces(s) == r;
      assert s[0] == ' ' && c != [] ==> c[0] != ' ';
      forall i | 0 <= i < |r| - 1 ensures !(r[i] == ' ' && r[i + 1] == ' ') {
        if i > 0 {
          assert r[i] == c[i - 1] && r[i + 1] == c[i];
        }
      }
    }
  }

  /** A text without adjacent spaces is left alone. */
  lemma {:induction false} CollapseSpacesClean(s: string)
    requires NoDoubleSpace(s)
    ensures CollapseSpaces(s) == s
    decreases |s|
  {
    if s != [] {
      SliceNoDoubleSpace(s, 1, |s|);
      CollapseSpacesClean(s[1..]);
      if s[0] == ' ' {
        assert TrimLeft(s, IsBlank) == TrimLeft(s[1..], IsBlank);
        if |s| > 1 {
          assert s[1..][0] == s[1] != ' ';
        }
        assert TrimLeft(s, IsBlank) == s[1..];
      }
      assert s == [s[0]] + s[1..];
    }
  }

  /** Slicing keeps a string free of double spaces. */
  lemma SliceNoDoubleSpace(s: string, i: nat, j: nat)
    requires i <= j <= |s| && NoDoubleSpace(s)
    ensures NoDoubleSpace(s[i..j])
  {
    forall k | 0 <= k < j - i - 1 ensures !(s[i..j][k] == ' ' && s[i..j][k + 1] == ' ') {
      assert s[i..j][k] == s[i + k] && s[i..j][k + 1] == s[i + k + 1];
    }
  }

  /** Stripping keeps a string free of double spaces. */
  lemma StripNoDoubleSpace(s: string)
    requires NoDoubleSpace(s)
    ensures NoDoubleSpace(Strip(s))
  {
    var l := TrimLeft(s, IsSpace);
    SliceNoDoubleSpace(s, |s| - |l|, |s|);
    SliceNoDoubleSpace(l, 0, |TrimRight(l, IsSpace)|);
  }

  // ---------------------------------------------------------------------------
  // case mapping (ASCII letters; see README)

  function LowerChar(c: char): (d: char)
    ensures !('A' <= d <= 'Z')
    ensures !('A' <= c <= 'Z') ==> d == c
  {
    if 'A' <= c <= 'Z' then (c as int + 32) as char else c
  }

  function UpperChar(c: char): (d: char)
    ensures !('a' <= d <= 'z')
    ensures !('a' <= c <= 'z') ==> d == c
  {
    if 'a' <= c <= 'z' then (c as int - 32) as char else c
  }

  /** Python's `s.lower()` on ASCII letters. */
  function Lower(s: string): (r: string)
    ensures |r| == |s|
    ensures forall i :: 0 <= i < |r| ==> !('A' <= r[i] <= 'Z')
    ensures forall i :: 0 <= i < |s| ==> if 'A' <= s[i] <= 'Z' then r[i] as int == s[i] as int + 32 else r[i] == s[i]
  {
    seq(|s|, i requires 0 <= i < |s| => LowerChar(s[i]))
  }

  /** Python's `s.upper()` on ASCII letters. */
  function Upper(s: string): (r: string)
    ensures |r| == |s|
    ensures forall i :: 0 <= i < |r| ==> !('a' <= r[i] <= 'z')
    ensures forall i :: 0 <= i < |s| ==> if 'a' <= s[i] <= 'z' then r[i] as int == s[i] as int - 32 else r[i] == s[i]
  {
    seq(|s|, i requires 0 <= i < |s| => UpperChar(s[i]))
  }

  /** Python's `s.count(c)` for one character. */
  function CountChar(s: string, c: char): nat {
    if s == [] then 0 else (if s[0] == c then 1 else 0) + CountChar(s[1..], c)
  }

  lemma {:induction false} CountCharAppend(a: string, b: string, c: char)
    ensures CountChar(a + b, c) == CountChar(a, c) + CountChar(b, c)
  {
    if a == [] {
      assert a + b == b;
    } else {
      assert (a + b)[1..] == a[1..] + b;
      CountCharAppend(a[1..], b, c);
    }
  }

  lemma {:induction false} CountCharAbsent(s: string, c: char)
    requires !Contains(s, [c])
    ensures CountChar(s, c) == 0
  {
    IndexOfSpec(s, [c]);
    if s != [] {
      assert s[0] != c by { assert !OccursAt(s, [c], 0); }
      assert !Contains(s[1..], [c]) by {
        forall j | 0 <= j ensures !OccursAt(s[1..], [c], j) {
          assert !OccursAt(s, [c], j + 1);
          if j + 1 <= |s[1..]| { assert s[1..][j..j + 1] == s[j + 1..j + 2]; }
        }
      }
      CountCharAbsent(s[1..], c);
    }
  }

  /** Splitting on one character yields one more piece than it has occurrences. */
  lemma {:induction false} SplitOnCharCount(s: string, c: char)
    ensures |SplitOn(s, [c])| == CountChar(s, c) + 1
    decreases |s|
  {
    IndexOfSpec(s, [c]);
    match IndexOf(s, [c])
    case None =>
      CountCharAbsent(s, c);
    case Some(i) =>
      var head := s[..i];
      var tail := s[i + 1..];
      assert s == head + [c] + tail;
      assert SplitOn(s, [c]) == [head] + SplitOn(tail, [c]);
      PrefixLacks(s, [c], i);
      CountCharAbsent(head, c);
      CountCharAppend(head + [c], tail, c);
      CountCharAppend(head, [c], c);
      SplitOnCharCount(tail, c);
  }

  // ---------------------------------------------------------------------------
  // the text shown with a selfie

  /** `re.sub(r'  +', ' ', text.replace(image, '')).strip()`: the text shown
      with a selfie. It is never longer than the text and has no surrounding
      whitespace. */
  function DisplayText(text: string, image: string): (r: string)
    ensures |r| <= |text|
    ensures r != [] ==> !IsSpace(r[0]) && !IsSpace(r[|r| - 1])
  {
    Strip(CollapseSpaces(RemoveAll(text, image)))
  }

  /** The displayed text has no two adjacent spaces, and it is the text
      itself, stripped, when that holds no placeholder and no double space. */
  lemma DisplayTextSpec(text: string, image: string)
    ensures NoDoubleSpace(DisplayText(text, image))
    ensures |image| > 0 && !Contains(text, image) && NoDoubleSpace(text) ==> DisplayText(text, image) == Strip(text)
  {
    var removed := RemoveAll(text, image);
    CollapseSpacesSpec(removed);
    StripNoDoubleSpace(CollapseSpaces(removed));
    if |image| > 0 && !Contains(text, image) && NoDoubleSpace(text) {
      CollapseSpacesClean(text);
    }
  }
}
