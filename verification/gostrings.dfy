/** The functions of Go's `strings` and `path/filepath` packages that the
    source applies to object keys and local paths, for `/`-separated paths. */
module GoStrings {

  /** strings.HasPrefix */
  predicate HasPrefix(s: string, prefix: string) {
    |prefix| <= |s| && s[..|prefix|] == prefix
  }

  /** strings.HasSuffix */
  predicate HasSuffix(s: string, suffix: string) {
    |suffix| <= |s| && s[|s| - |suffix|..] == suffix
  }

  /** strings.TrimPrefix: removes one leading occurrence of `prefix`, if any. */
  function TrimPrefix(s: string, prefix: string): (r: string)
    ensures HasPrefix(s, prefix) ==> prefix + r == s
    ensures !HasPrefix(s, prefix) ==> r == s
  {
    if HasPrefix(s, prefix) then s[|prefix|..] else s
  }

  /** strings.TrimSuffix: removes one trailing occurrence of `suffix`, if any. */
  function TrimSuffix(s: string, suffix: string): (r: string)
    ensures HasSuffix(s, suffix) ==> r + suffix == s
    ensures !HasSuffix(s, suffix) ==> r == s
  {
    if HasSuffix(s, suffix) then s[..|s| - |suffix|] else s
  }

  /** Appending a suffix and trimming it again gives back the original. */
  lemma TrimSuffixOfAppended(s: string, suffix: string)
    ensures HasSuffix(s + suffix, suffix)
    ensures TrimSuffix(s + suffix, suffix) == s
  {
    assert (s + suffix)[|s|..] == suffix;
    assert (s + suffix)[..|s|] == s;
  }

  /** Trimming a suffix of the last part of a joined string trims it from
      that part. */
  lemma TrimSuffixOfJoined(a: string, b: string, suffix: string)
    requires HasSuffix(b, suffix)
    ensures HasSuffix(a + b, suffix)
    ensures TrimSuffix(a + b, suffix) == a + TrimSuffix(b, suffix)
  {
    assert (a + b)[|a + b| - |suffix|..] == b[|b| - |suffix|..];
    assert (a + b)[..|a + b| - |suffix|] == a + b[..|b| - |suffix|];
  }

  /** strings.TrimRight(s, "/"): removes every trailing `/`. */
  function TrimRightSlashes(s: string): (r: string)
    ensures |r| <= |s| && r == s[..|r|]
    ensures r == "" || r[|r| - 1] != '/'
    ensures forall i :: |r| <= i < |s| ==> s[i] == '/'
    decreases |s|
  {
    if s != "" && s[|s| - 1] == '/' then TrimRightSlashes(s[..|s| - 1]) else s
  }

  /** The index of the last `/` in `s`, or -1 (strings.LastIndex(s, "/")). */
  function LastSlash(s: string): (i: int)
    ensures -1 <= i < |s|
    ensures i >= 0 ==> s[i] == '/'
    ensures forall j :: i < j < |s| ==> s[j] != '/'
    decreases |s|
  {
    if s == "" then -1
    else if s[|s| - 1] == '/' then |s| - 1
    else LastSlash(s[..|s| - 1])
  }

  /** filepath.Base: the last element of `p` after trailing slashes are
      removed; "." for the empty path and "/" for a path of slashes only. */
  function Base(p: string): (b: string)
    ensures b != ""
  {
    if p == "" then "."
    else
      var q := TrimRightSlashes(p);
      if q == "" then "/" else q[LastSlash(q) + 1..]
  }

  /** filepath.Dir: everything before the last element, trailing slashes
      removed; "." when there is no `/` and "/" for the root. */
  function Dir(p: string): (d: string)
    ensures d != ""
  {
    var i := LastSlash(p);
    if i < 0 then "."
    else
      var t := TrimRightSlashes(p[..i + 1]);
      if t == "" then "/" else t
  }

  /** The base name of a path that does not end in `/` is a suffix of it
      and holds no `/`. */
  lemma BaseOfFileName(p: string)
    requires p != "" && p[|p| - 1] != '/'
    ensures HasSuffix(p, Base(p))
    ensures '/' !in Base(p)
  {
    assert TrimRightSlashes(p) == p;
    var i := LastSlash(p);
    assert Base(p) == p[i + 1..];
    assert p[|p| - |p[i + 1..]|..] == p[i + 1..];
  }

  /** A suffix without `/` of a path that does not end in `/` is a suffix
      of its base name. */
  lemma SuffixOfBase(p: string, suffix: string)
    requires p != "" && p[|p| - 1] != '/'
    requires HasSuffix(p, suffix) && '/' !in suffix
    ensures HasSuffix(Base(p), suffix)
  {
    BaseOfFileName(p);
    assert TrimRightSlashes(p) == p;
    var i := LastSlash(p);
    assert i < |p| - |suffix|;
    assert Base(p) == p[i + 1..];
    assert Base(p)[|Base(p)| - |suffix|..] == p[|p| - |suffix|..];
  }

  /** A name without `/` is its own base name. */
  lemma BaseOfName(name: string)
    requires name != "" && '/' !in name
    ensures Base(name) == name
  {
    assert TrimRightSlashes(name) == name;
    assert LastSlash(name) == -1;
  }

  /** The base name of `dir/name` is `name` whatever `dir` is. */
  lemma BaseOfJoin(dir: string, name: string)
    requires name != "" && '/' !in name
    ensures Base(dir + "/" + name) == name
  {
    var p := dir + "/" + name;
    assert p[|p| - 1] == name[|name| - 1];
    assert name[|name| - 1] in name;
    assert TrimRightSlashes(p) == p;
    var i := LastSlash(p);
    assert p[|dir|] == '/';
    assert i == |dir|;
    assert p[i + 1..] == name;
  }

  /** strings.Contains(s, "/") */
  predicate HasSlash(s: string) {
    '/' in s
  }

  /** The number of occurrences of `c` in `s`. */
  function Count(s: string, c: char): (n: nat)
    ensures n <= |s|
    ensures n == 0 <==> c !in s
  {
    if s == "" then 0 else (if s[0] == c then 1 else 0) + Count(s[1..], c)
  }

  /** strings.Replace(s, "*", ".*", n): the first `n` stars, or every star
      when `n` is negative, become ".*". */
  function ReplaceStar(s: string, n: int): (r: string)
    decreases |s|
  {
    if s == "" || n == 0 then s
    else if s[0] == '*' then ".*" + ReplaceStar(s[1..], n - 1)
    else [s[0]] + ReplaceStar(s[1..], n)
  }

  /** Replacing zero stars, or replacing in a string without stars,
      changes nothing. */
  lemma {:induction false} ReplaceStarIdentity(s: string, n: int)
    requires n == 0 || '*' !in s
    ensures ReplaceStar(s, n) == s
    decreases |s|
  {
    if s != "" && n != 0 {
      assert s[0] != '*' && '*' !in s[1..] by { assert s[0] in s; assert forall c :: c in s[1..] ==> c in s; }
      ReplaceStarIdentity(s[1..], n);
      assert [s[0]] + s[1..] == s;
    }
  }

  /** Replacing every star distributes over concatenation, and a single star
      becomes ".*": together with ReplaceStarIdentity this says that every
      star, and nothing else, is rewritten. */
  lemma {:induction false} ReplaceAllStarsAppend(a: string, b: string)
    ensures ReplaceStar(a + b, -1) == ReplaceStar(a, -1) + ReplaceStar(b, -1)
    ensures ReplaceStar("*", -1) == ".*"
    decreases |a|
  {
    assert ReplaceStar("*", -1) == ".*" + ReplaceStar("", -2);
    if a != "" {
      assert (a + b)[0] == a[0] && (a + b)[1..] == a[1..] + b;
      ReplaceAllStarsAppend(a[1..], b);
      assert ReplaceStar(a[1..] + b, -2) == ReplaceStar(a[1..] + b, -1) by { ReplaceNegative(a[1..] + b, -2); }
      assert ReplaceStar(a[1..], -2) == ReplaceStar(a[1..], -1) by { ReplaceNegative(a[1..], -2); }
    } else {
      assert a + b == b;
    }
  }

  /** Every negative count means "replace all". */
  lemma {:induction false} ReplaceNegative(s: string, n: int)
    requires n < 0
    ensures ReplaceStar(s, n) == ReplaceStar(s, -1)
    decreases |s|
  {
    if s != "" {
      ReplaceNegative(s[1..], n);
      ReplaceNegative(s[1..], n - 1);
      ReplaceNegative(s[1..], -2);
    }
  }

  /** Replacing every star adds exactly one character per star. */
  lemma {:induction false} ReplaceAllStarsLength(s: string)
    ensures |ReplaceStar(s, -1)| == |s| + Count(s, '*')
    decreases |s|
  {
    if s != "" {
      ReplaceAllStarsLength(s[1..]);
      ReplaceNegative(s[1..], -2);
    }
  }

  /** strings.Split(s, string(sep)) */
  function Split(s: string, sep: char): (parts: seq<string>)
    ensures |parts| == Count(s, sep) + 1
    ensures forall k :: 0 <= k < |parts| ==> sep !in parts[k]
    decreases |s|
  {
    if s == "" then [""]
    else
      var rest := Split(s[1..], sep);
      if s[0] == sep then [""] + rest else [[s[0]] + rest[0]] + rest[1..]
  }

  /** strings.Join(parts, string(sep)) */
  function Join(parts: seq<string>, sep: char): string
    requires |parts| >= 1
  {
    if |parts| == 1 then parts[0] else parts[0] + [sep] + Join(parts[1..], sep)
  }

  /** A character put in front of the first piece comes first in the join. */
  lemma JoinConsFirst(c: char, parts: seq<string>, sep: char)
    requires |parts| >= 1
    ensures Join([[c] + parts[0]] + parts[1..], sep) == [c] + Join(parts, sep)
  {
    var joined := [[c] + parts[0]] + parts[1..];
    if |parts| > 1 {
      assert joined[0] == [c] + parts[0] && joined[1..] == parts[1..];
      var tail := Join(parts[1..], sep);
      assert Join(joined, sep) == ([c] + parts[0]) + [sep] + tail;
      assert ([c] + parts[0]) + [sep] + tail == [c] + (parts[0] + [sep] + tail);
    }
  }

  /** Joining the pieces of a split gives back the string. */
  lemma {:induction false} SplitThenJoin(s: string, sep: char)
    ensures Join(Split(s, sep), sep) == s
    decreases |s|
  {
    if s != "" {
      var rest := Split(s[1..], sep);
      SplitThenJoin(s[1..], sep);
      assert s == [s[0]] + s[1..];
      if s[0] == sep {
        assert Split(s, sep)[1..] == rest;
      } else {
        JoinConsFirst(s[0], rest, sep);
      }
    }
  }

  /** Splitting a join of separator-free pieces gives back the pieces. */
  lemma {:induction false} JoinThenSplit(parts: seq<string>, sep: char)
    requires |parts| >= 1
    requires forall k :: 0 <= k < |parts| ==> sep !in parts[k]
    ensures Split(Join(parts, sep), sep) == parts
    decreases |parts|
  {
    if |parts| == 1 {
      SplitPlain(parts[0], sep);
    } else {
      JoinThenSplit(parts[1..], sep);
      SplitAtFirst(parts[0], Join(parts[1..], sep), sep);
      assert [parts[0]] + parts[1..] == parts;
    }
  }

  /** A separator-free string splits into itself. */
  lemma {:induction false} SplitPlain(p: string, sep: char)
    requires sep !in p
    ensures Split(p, sep) == [p]
    decreases |p|
  {
    if p != "" {
      assert p[0] in p;
      assert forall c :: c in p[1..] ==> c in p;
      SplitPlain(p[1..], sep);
      assert [p[0]] + p[1..] == p;
    }
  }

  /** Splitting at the first separator. */
  lemma {:induction false} SplitAtFirst(p: string, t: string, sep: char)
    requires sep !in p
    ensures Split(p + [sep] + t, sep) == [p] + Split(t, sep)
    decreases |p|
  {
    var s := p + [sep] + t;
    if p == "" {
      assert s[0] == sep && s[1..] == t;
    } else {
      assert p[0] in p;
      assert forall c :: c in p[1..] ==> c in p;
      assert s[0] == p[0] && s[1..] == p[1..] + [sep] + t;
      SplitAtFirst(p[1..], t, sep);
      assert [p[0]] + p[1..] == p;
    }
  }
}
