/** The JavaScript string and number built-ins that the generator's code relies on
    (`indexOf`, `includes`, `replace` with a string pattern, `trim`, `split`, `join`,
    `Number` on a version component, `String` on an array index), stated over Dafny
    strings with one `char` per JavaScript code unit. */
module JsText {

  datatype Option<+T> = None | Some(value: T)

  // ---------------------------------------------------------------------------
  // Occurrences: indexOf, includes

  /** t occurs in s starting at index i. */
  predicate OccursAt(s: string, t: string, i: nat)
  {
    i + |t| <= |s| && s[i..i + |t|] == t
  }

  /** s.indexOf(t, from), with None for -1: the leftmost occurrence at or after from. */
  function IndexOfFrom(s: string, t: string, from: nat): (r: Option<nat>)
    ensures r.Some? ==> from <= r.value && OccursAt(s, t, r.value)
    ensures r.Some? ==> forall j: nat :: from <= j < r.value ==> !OccursAt(s, t, j)
    ensures r.None? ==> forall j: nat :: from <= j ==> !OccursAt(s, t, j)
    decreases |s| - from
  {
    if from + |t| > |s| then None
    else if OccursAt(s, t, from) then Some(from)
    else IndexOfFrom(s, t, from + 1)
  }

  /** s.indexOf(t). */
  function IndexOf(s: string, t: string): Option<nat>
  {
    IndexOfFrom(s, t, 0)
  }

  /** s.includes(t). */
  predicate Contains(s: string, t: string)
  {
    IndexOf(s, t).Some?
  }

  /** s.endsWith(t). */
  predicate EndsWith(s: string, t: string)
  {
    |t| <= |s| && s[|s| - |t|..] == t
  }

  /** A text ending in a dot, followed by e, ends with "." + e. */
  lemma DotSuffix(stem: string, e: string)
    requires |stem| > 0 && stem[|stem| - 1] == '.'
    ensures EndsWith(stem + e, "." + e)
  {
    var s := stem + e;
    assert s[|s| - |e| - 1..] == s[|stem| - 1..];
    assert s[|stem| - 1..] == [stem[|stem| - 1]] + e;
  }

  /** A text ends with at most one of two different texts of the same length. */
  lemma OneSuffixOfLength(s: string, x: string, y: string)
    requires EndsWith(s, x) && |x| == |y| && x != y
    ensures !EndsWith(s, y)
  {
  }

  /** indexOf finds an occurrence at or before any known one. */
  lemma IndexOfAtMost(s: string, t: string, i: nat)
    requires OccursAt(s, t, i)
    ensures Contains(s, t) && IndexOf(s, t).value <= i
  {
  }

  lemma OccursThenContains(s: string, t: string, i: nat)
    requires OccursAt(s, t, i)
    ensures Contains(s, t)
  {
  }

  /** A character of t that s lacks keeps t out of s. */
  lemma AbsentCharNotContained(s: string, t: string, k: nat)
    requires k < |t| && t[k] !in s
    ensures !Contains(s, t)
  {
    forall i: nat ensures !OccursAt(s, t, i) {
      if i + |t| <= |s| {
        assert s[i..i + |t|][k] == s[i + k];
      }
    }
  }

  /** An occurrence of a longer text carries an occurrence of each of its prefixes. */
  lemma PrefixOccurs(s: string, t: string, j: nat, n: nat)
    requires OccursAt(s, t, j) && n <= |t|
    ensures OccursAt(s, t[..n], j)
  {
    assert s[j..j + n] == s[j..j + |t|][..n];
  }

  /** Index of the first c at or after from. */
  function FindChar(s: string, c: char, from: nat): (r: Option<nat>)
    ensures r.Some? ==> from <= r.value < |s| && s[r.value] == c
    ensures r.Some? ==> forall j :: from <= j < r.value ==> s[j] != c
    ensures r.None? ==> forall j :: from <= j < |s| ==> s[j] != c
    decreases |s| - from
  {
    if from >= |s| then None
    else if s[from] == c then Some(from)
    else FindChar(s, c, from + 1)
  }

  // ---------------------------------------------------------------------------
  // Replacing a span: String.prototype.replace with a string pattern

  /** s with the span [i, e) replaced by u. */
  function Splice(s: string, i: nat, e: nat, u: string): (r: string)
    requires i <= e <= |s|
    ensures |r| == |s| - (e - i) + |u|
    ensures r[..i] == s[..i] && OccursAt(r, u, i) && r[i + |u|..] == s[e..]
  {
    s[..i] + u + s[e..]
  }

  /** s.replace(p, u) for a string pattern p: the leftmost occurrence of p, and only
      that one, is replaced by u, taken literally. JavaScript would expand replacement
      patterns such as `$&` or `$$` in u; the literal replacements the generator uses
      hold no `$`, but the import step's replacement holds text read from the App file,
      where such patterns are not interpreted here. */
  function ReplaceFirst(s: string, p: string, u: string): (r: string)
    ensures !Contains(s, p) ==> r == s
    ensures Contains(s, p) ==>
      exists i: nat :: OccursAt(s, p, i) && (forall j: nat :: j < i ==> !OccursAt(s, p, j))
                       && r == Splice(s, i, i + |p|, u)
  {
    match IndexOf(s, p)
    case None => s
    case Some(i) => Splice(s, i, i + |p|, u)
  }

  /** A replacement that happens splices u over the first occurrence of p. */
  lemma ReplaceFirstAt(s: string, p: string, u: string)
    requires Contains(s, p)
    ensures IndexOf(s, p).value + |p| <= |s|
    ensures ReplaceFirst(s, p, u) == Splice(s, IndexOf(s, p).value, IndexOf(s, p).value + |p|, u)
  {
  }

  /** After a replacement that happened, the replacement text is in the result. */
  lemma ReplaceFirstInserts(s: string, p: string, u: string)
    requires Contains(s, p)
    ensures Contains(ReplaceFirst(s, p, u), u)
  {
    var i := IndexOf(s, p).value;
    OccursThenContains(ReplaceFirst(s, p, u), u, i);
  }

  /** An occurrence of t outside the replaced span survives the splice. */
  lemma SpliceKeeps(s: string, i: nat, e: nat, u: string, t: string, j: nat)
    requires i <= e <= |s| && OccursAt(s, t, j)
    requires j + |t| <= i || e <= j
    ensures OccursAt(Splice(s, i, e, u), t, if e <= j then j - (e - i) + |u| else j)
  {
    var r := Splice(s, i, e, u);
    if e <= j {
      var j' := j - (e - i) + |u|;
      assert r[j'..j' + |t|] == r[i + |u|..][j - e..j - e + |t|];
      assert s[j..j + |t|] == s[e..][j - e..j - e + |t|];
    } else {
      assert r[j..j + |t|] == r[..i][j..j + |t|];
      assert s[j..j + |t|] == s[..i][j..j + |t|];
    }
  }

  /** Character facts that keep an occurrence of t apart from the span [i, e) of s:
      the span's first character is not in t, the span's later characters differ from
      t's second one, and the span's last character differs from t's first one. */
  lemma Apart(s: string, t: string, j: nat, i: nat, e: nat)
    requires OccursAt(s, t, j) && |t| >= 2 && i < e <= |s|
    requires s[i] !in t
    requires forall k :: i < k < e ==> s[k] != t[1]
    requires s[e - 1] != t[0]
    ensures j + |t| <= i || e <= j
  {
    assert forall k :: 0 <= k < |t| ==> s[j + k] == s[j..j + |t|][k] == t[k];
  }

  /** Apart, for a span that holds a known text p. */
  lemma ApartFromText(s: string, t: string, j: nat, p: string, i: nat)
    requires OccursAt(s, t, j) && OccursAt(s, p, i) && |t| >= 2 && |p| >= 1
    requires p[0] !in t && t[1] !in p && p[|p| - 1] != t[0]
    ensures j + |t| <= i || i + |p| <= j
  {
    forall k | i < k < i + |p| ensures s[k] != t[1] {
      assert s[i..i + |p|][k - i] == s[k];
    }
    assert s[i..i + |p|][0] == s[i];
    assert s[i..i + |p|][|p| - 1] == s[i + |p| - 1];
    Apart(s, t, j, i, i + |p|);
  }

  /** An occurrence outside the replaced span is still contained after the splice. */
  lemma SpliceKeepsOutside(s: string, i: nat, e: nat, u: string, t: string, j: nat)
    requires i <= e <= |s| && OccursAt(s, t, j)
    requires j + |t| <= i || e <= j
    ensures Contains(Splice(s, i, e, u), t)
  {
    SpliceKeeps(s, i, e, u, t, j);
    OccursThenContains(Splice(s, i, e, u), t, if e <= j then j - (e - i) + |u| else j);
  }

  /** ReplaceFirst keeps every occurrence that the character facts of Apart hold for. */
  lemma ReplaceFirstKeeps(s: string, p: string, u: string, t: string, j: nat)
    requires OccursAt(s, t, j) && |t| >= 2 && |p| >= 1
    requires p[0] !in t && t[1] !in p && p[|p| - 1] != t[0]
    ensures Contains(ReplaceFirst(s, p, u), t)
  {
    if Contains(s, p) {
      var i := IndexOf(s, p).value;
      ReplaceFirstAt(s, p, u);
      ApartFromText(s, t, j, p, i);
      SpliceKeepsOutside(s, i, i + |p|, u, t, j);
    } else {
      OccursThenContains(s, t, j);
    }
  }

  /** A character missing from t is missing from every occurrence of t. */
  lemma OccurrenceLacks(s: string, t: string, i: nat, c: char)
    requires OccursAt(s, t, i) && c !in t
    ensures forall k :: i <= k < i + |t| ==> s[k] != c
  {
    OccurrenceChars(s, t, i);
  }

  /** Whatever the inserted text holds, the spliced text holds. */
  lemma SpliceContains(s: string, i: nat, e: nat, u: string, t: string, k: nat)
    requires i <= e <= |s| && OccursAt(u, t, k)
    ensures Contains(Splice(s, i, e, u), t)
  {
    ContainsInner(Splice(s, i, e, u), u, i, t, k);
  }

  /** A text is contained in anything it starts. */
  lemma PrefixContained(x: string, rest: string)
    ensures Contains(x + rest, x)
  {
    assert (x + rest)[..|x|] == x;
    OccursThenContains(x + rest, x, 0);
  }

  /** Replacing a present text by one that ends in x puts x into the result. */
  lemma ReplaceFirstAddsSuffix(s: string, m: string, pre: string, x: string)
    requires Contains(s, m)
    ensures Contains(ReplaceFirst(s, m, pre + x), x)
  {
    var w := ReplaceFirst(s, m, pre + x);
    ReplaceFirstInserts(s, m, pre + x);
    var i := IndexOf(w, pre + x).value;
    assert (pre + x)[|pre|..] == x;
    ContainsInner(w, pre + x, i, x, |pre|);
  }

  /** An occurrence of u holding an occurrence of t puts t into s. */
  lemma InnerOccurs(s: string, u: string, i: nat, t: string, k: nat)
    requires OccursAt(s, u, i) && OccursAt(u, t, k)
    ensures OccursAt(s, t, i + k)
  {
    forall m | 0 <= m < |t| ensures s[i + k + m] == t[m] {
      assert t[m] == u[k..k + |t|][m] == u[k + m] == s[i..i + |u|][k + m];
    }
    assert s[i + k..i + k + |t|] == t;
  }

  /** A text inside an occurring text is contained too. */
  lemma ContainsInner(s: string, u: string, i: nat, t: string, k: nat)
    requires OccursAt(s, u, i) && OccursAt(u, t, k)
    ensures Contains(s, t)
  {
    InnerOccurs(s, u, i, t, k);
    OccursThenContains(s, t, i + k);
  }

  /** The characters an occurrence of t covers are characters of t. */
  lemma OccurrenceChars(s: string, t: string, i: nat)
    requires OccursAt(s, t, i)
    ensures forall k :: i <= k < i + |t| ==> s[k] in t
  {
    forall k | i <= k < i + |t| ensures s[k] in t {
      assert s[k] == s[i..i + |t|][k - i];
    }
  }

  /** Replacing an occurrence of m by m + x inserts x right after it. */
  lemma SpliceAppends(s: string, i: nat, m: string, x: string)
    requires OccursAt(s, m, i)
    ensures Splice(s, i, i + |m|, m + x) == Splice(s, i + |m|, i + |m|, x)
  {
    var c := i + |m|;
    assert s[..c] == s[..i] + m;
  }

  /** Replacing the first occurrence of m by m + x inserts x right after it. */
  lemma ReplaceFirstAppends(s: string, m: string, x: string)
    requires Contains(s, m)
    ensures IndexOf(s, m).value + |m| <= |s|
    ensures ReplaceFirst(s, m, m + x)
            == Splice(s, IndexOf(s, m).value + |m|, IndexOf(s, m).value + |m|, x)
  {
    ReplaceFirstAt(s, m, m + x);
    SpliceAppends(s, IndexOf(s, m).value, m, x);
  }

  /** An occurrence of m starts with m's first character. */
  lemma OccurrenceStarts(s: string, m: string, i: nat)
    requires OccursAt(s, m, i) && |m| > 0
    ensures s[i] == m[0]
  {
    assert s[i..i + |m|][0] == s[i];
  }

  /** The last character of an occurrence of m is m's last character. */
  lemma OccurrenceEnds(s: string, m: string, i: nat)
    requires OccursAt(s, m, i) && |m| > 0
    ensures s[i + |m| - 1] == m[|m| - 1]
  {
    assert s[i..i + |m|][|m| - 1] == s[i + |m| - 1];
  }

  /** Where ReplaceFirst(s, m, m + x) puts x: right after the first occurrence of m,
      whose last character therefore precedes it. */
  lemma AppendAfterFirst(s: string, m: string, x: string) returns (c: nat)
    requires Contains(s, m) && |m| > 0
    ensures |m| <= c <= |s| && s[c - 1] == m[|m| - 1]
    ensures c == IndexOf(s, m).value + |m|
    ensures ReplaceFirst(s, m, m + x) == Splice(s, c, c, x)
  {
    ReplaceFirstAppends(s, m, x);
    var i := IndexOf(s, m).value;
    c := i + |m|;
    OccurrenceEnds(s, m, i);
  }

  /** The same for the text found between p and e in s itself. */
  lemma AppendAfterSlice(s: string, p: nat, e: nat, x: string) returns (c: nat)
    requires p < e <= |s|
    ensures 0 < c <= |s| && s[c - 1] == s[e - 1]
    ensures Contains(s, s[p..e]) && c == IndexOf(s, s[p..e]).value + (e - p) && c <= e
    ensures ReplaceFirst(s, s[p..e], s[p..e] + x) == Splice(s, c, c, x)
  {
    var m := s[p..e];
    IndexOfAtMost(s, m, p);
    c := AppendAfterFirst(s, m, x);
    assert m[|m| - 1] == s[e - 1];
  }

  /** Inserting x cannot create an occurrence of t when t's first and last characters
      are not in x and some character of x is not in t. */
  lemma InsertKeepsAbsent(s: string, c: nat, x: string, t: string, k: nat)
    requires c <= |s| && !Contains(s, t) && |t| > 0
    requires t[0] !in x && t[|t| - 1] !in x
    requires k < |x| && x[k] !in t
    ensures !Contains(Splice(s, c, c, x), t)
  {
    var r := Splice(s, c, c, x);
    assert r == s[..c] + x + s[c..];
    forall j: nat ensures !OccursAt(r, t, j) {
      if j + |t| <= |r| {
        var w := r[j..j + |t|];
        if j + |t| <= c {
          assert w == s[j..j + |t|];
          assert !OccursAt(s, t, j);
        } else if c + |x| <= j {
          assert w == s[j - |x|..j - |x| + |t|];
          assert !OccursAt(s, t, j - |x|);
        } else if c <= j {
          assert w[0] == x[j - c];
        } else if j + |t| <= c + |x| {
          assert w[|t| - 1] == x[j + |t| - 1 - c];
        } else {
          assert w[c - j + k] == x[k];
        }
      }
    }
  }

  /** Inserting text at an index that does not fall strictly inside an occurrence
      keeps that occurrence. */
  lemma InsertKeeps(s: string, c: nat, x: string, t: string, j: nat)
    requires c <= |s| && OccursAt(s, t, j)
    requires !(j < c < j + |t|)
    ensures Contains(Splice(s, c, c, x), t)
  {
    SpliceKeeps(s, c, c, x, t, j);
    OccursThenContains(Splice(s, c, c, x), t, if c <= j then j + |x| else j);
  }

  /** Inserting text right after a character that t does not contain keeps t. */
  lemma InsertAfterKeeps(s: string, c: nat, x: string, t: string, j: nat)
    requires c <= |s| && OccursAt(s, t, j)
    requires c == 0 || s[c - 1] !in t
    ensures Contains(Splice(s, c, c, x), t)
  {
    forall k | j <= k < j + |t| ensures s[k] in t {
      assert s[k] == s[j..j + |t|][k - j];
    }
    InsertKeeps(s, c, x, t, j);
  }

  // ---------------------------------------------------------------------------
  // White space: \s in a regular expression and String.prototype.trim

  /** The JavaScript line terminators (what `^` in multiline mode follows). */
  predicate IsLineTerminator(c: char)
  {
    c == '\n' || c == '\r' || c == '\U{2028}' || c == '\U{2029}'
  }

  /** JavaScript WhiteSpace or LineTerminator: the class \s and what trim() strips. */
  predicate IsSpace(c: char)
  {
    || IsLineTerminator(c)
    || c == '\t' || c == '\U{B}' || c == '\U{C}' || c == ' ' || c == '\U{A0}'
    || c == '\U{1680}' || ('\U{2000}' <= c <= '\U{200A}')
    || c == '\U{202F}' || c == '\U{205F}' || c == '\U{3000}' || c == '\U{FEFF}'
  }

  /** The first index at or after from whose character is not white space (or |s|):
      where a greedy \s* starting at from stops. */
  function SkipSpaces(s: string, from: nat): (r: nat)
    requires from <= |s|
    ensures from <= r <= |s|
    ensures forall k :: from <= k < r ==> IsSpace(s[k])
    ensures r < |s| ==> !IsSpace(s[r])
    decreases |s| - from
  {
    if from < |s| && IsSpace(s[from]) then SkipSpaces(s, from + 1) else from
  }

  /** A run of white space holds no character that is not white space. */
  lemma SkippedLacks(s: string, from: nat, c: char)
    requires from <= |s| && !IsSpace(c)
    ensures forall k :: from <= k < SkipSpaces(s, from) ==> s[k] != c
  {
  }

  /** The index just past the last character in [lo, hi) that is not white space, or lo
      when there is none: where trailing white space starts. */
  function TrimEndIndex(s: string, lo: nat, hi: nat): (r: nat)
    requires lo <= hi <= |s|
    ensures lo <= r <= hi
    ensures forall k :: r <= k < hi ==> IsSpace(s[k])
    ensures r > lo ==> !IsSpace(s[r - 1])
    decreases hi
  {
    if hi > lo && IsSpace(s[hi - 1]) then TrimEndIndex(s, lo, hi - 1) else hi
  }

  /** s.trim(): s without its leading and trailing white space. */
  function Trim(s: string): (r: string)
    ensures r != [] ==> !IsSpace(r[0]) && !IsSpace(r[|r| - 1])
    ensures var a := SkipSpaces(s, 0);
      && a + |r| <= |s| && r == s[a..a + |r|]
      && (forall k :: 0 <= k < a ==> IsSpace(s[k]))
      && (forall k :: a + |r| <= k < |s| ==> IsSpace(s[k]))
  {
    var a := SkipSpaces(s, 0);
    s[a..TrimEndIndex(s, a, |s|)]
  }

  /** Trimming text framed by white space gives the text back when its own ends are
      not white space. */
  lemma TrimFramed(pre: string, x: string, post: string)
    requires forall k :: 0 <= k < |pre| ==> IsSpace(pre[k])
    requires forall k :: 0 <= k < |post| ==> IsSpace(post[k])
    requires |x| > 0 && !IsSpace(x[0]) && !IsSpace(x[|x| - 1])
    ensures Trim(pre + x + post) == x
  {
    var s := pre + x + post;
    var hi := |pre| + |x|;
    forall k | 0 <= k < |pre| ensures IsSpace(s[k]) {
      assert s[k] == pre[k];
    }
    forall k | hi <= k < |s| ensures IsSpace(s[k]) {
      assert s[k] == post[k - hi];
    }
    assert s[|pre|] == x[0];
    assert s[hi - 1] == x[|x| - 1];
    TrimBetween(s, |pre|, hi);
    assert s[|pre|..hi] == x;
  }

  /** Trimming keeps exactly the span between white-space ends. */
  lemma TrimBetween(s: string, lo: nat, hi: nat)
    requires lo < hi <= |s| && !IsSpace(s[lo]) && !IsSpace(s[hi - 1])
    requires forall k :: 0 <= k < lo ==> IsSpace(s[k])
    requires forall k :: hi <= k < |s| ==> IsSpace(s[k])
    ensures Trim(s) == s[lo..hi]
  {
    var a := SkipSpaces(s, 0);
    var r := Trim(s);
    assert a == lo;
    assert a + |r| == hi;
  }

  /** Trimming twice is trimming once. */
  lemma TrimIdempotent(s: string)
    ensures Trim(Trim(s)) == Trim(s)
  {
    TrimUnchanged(Trim(s));
  }

  /** An occurrence inside an occurring text occurs in that text too. */
  lemma OccursWithin(s: string, r: string, a: nat, t: string, j: nat)
    requires OccursAt(s, r, a) && OccursAt(s, t, j) && a <= j && j + |t| <= a + |r|
    ensures OccursAt(r, t, j - a)
  {
    forall k | j - a <= k < j - a + |t| ensures r[k] == s[a + k] {
      assert r[k] == s[a..a + |r|][k];
    }
    assert r[j - a..j - a + |t|] == s[j..j + |t|];
  }

  /** A character that is not white space lies within what trim() keeps. */
  lemma InsideTrim(s: string, k: nat)
    requires k < |s| && !IsSpace(s[k])
    ensures SkipSpaces(s, 0) <= k < SkipSpaces(s, 0) + |Trim(s)|
  {
  }

  /** An occurrence whose first and last characters are not white space survives trim(). */
  lemma TrimKeeps(s: string, t: string, j: nat)
    requires OccursAt(s, t, j) && |t| > 0 && !IsSpace(t[0]) && !IsSpace(t[|t| - 1])
    ensures Contains(Trim(s), t)
  {
    var r := Trim(s);
    var a := SkipSpaces(s, 0);
    assert s[j] == t[0] by { assert s[j..j + |t|][0] == s[j]; }
    assert s[j + |t| - 1] == t[|t| - 1] by { assert s[j..j + |t|][|t| - 1] == s[j + |t| - 1]; }
    InsideTrim(s, j);
    InsideTrim(s, j + |t| - 1);
    OccursWithin(s, r, a, t, j);
    OccursThenContains(r, t, j - a);
  }

  // ---------------------------------------------------------------------------
  // Splitting and joining on one character: String.prototype.split, Array.prototype.join

  /** s.split(sep) for a one-character separator: the pieces between separators,
      always at least one (the empty string splits to [""]). */
  function Split(s: string, sep: char): (parts: seq<string>)
    ensures |parts| >= 1
    ensures forall k :: 0 <= k < |parts| ==> sep !in parts[k]
    decreases |s|
  {
    match FindChar(s, sep, 0)
    case None => [s]
    case Some(i) => [s[..i]] + Split(s[i + 1..], sep)
  }

  /** parts.join(sep) for a one-character separator. */
  function Join(parts: seq<string>, sep: char): string
  {
    if |parts| == 0 then ""
    else if |parts| == 1 then parts[0]
    else parts[0] + [sep] + Join(parts[1..], sep)
  }

  /** Joining three pieces. */
  lemma JoinThree(a: string, b: string, c: string, sep: char)
    ensures Join([a, b, c], sep) == a + [sep] + b + [sep] + c
  {
    assert [b, c][1..] == [c];
    assert Join([b, c], sep) == b + [sep] + c;
    assert [a, b, c][1..] == [b, c];
    assert a + [sep] + (b + [sep] + c) == a + [sep] + b + [sep] + c;
  }

  /** Joining four pieces. */
  lemma JoinFour(a: string, b: string, c: string, d: string, sep: char)
    ensures Join([a, b, c, d], sep) == a + [sep] + b + [sep] + c + [sep] + d
  {
    assert [a, b, c, d][1..] == [b, c, d];
    JoinThree(b, c, d, sep);
    assert a + [sep] + (b + [sep] + c + [sep] + d) == a + [sep] + b + [sep] + c + [sep] + d;
  }

  /** Splitting a piece off the front: the separator it ends at is the first one. */
  lemma SplitFront(head: string, sep: char, rest: string)
    requires sep !in head
    ensures Split(head + [sep] + rest, sep) == [head] + Split(rest, sep)
  {
    var s := head + [sep] + rest;
    assert s[|head|] == sep;
    forall j | 0 <= j < |head| ensures s[j] != sep {
      assert s[j] == head[j];
    }
    assert FindChar(s, sep, 0) == Some(|head|);
    assert s[..|head|] == head;
    assert s[|head| + 1..] == rest;
  }

  /** Joining the pieces of a split gives back the string. */
  lemma {:induction false} JoinSplit(s: string, sep: char)
    ensures Join(Split(s, sep), sep) == s
    decreases |s|
  {
    match FindChar(s, sep, 0)
    case None =>
    case Some(i) =>
      JoinSplit(s[i + 1..], sep);
      JoinFront(s[..i], Split(s[i + 1..], sep), sep);
      assert s == s[..i] + [sep] + s[i + 1..];
  }

  /** Joining a piece in front of at least one more. */
  lemma JoinFront(head: string, parts: seq<string>, sep: char)
    requires |parts| >= 1
    ensures Join([head] + parts, sep) == head + [sep] + Join(parts, sep)
  {
    assert ([head] + parts)[1..] == parts;
  }

  /** Splitting a join of separator-free pieces gives back the pieces. */
  lemma {:induction false} SplitJoin(parts: seq<string>, sep: char)
    requires |parts| >= 1
    requires forall k :: 0 <= k < |parts| ==> sep !in parts[k]
    ensures Split(Join(parts, sep), sep) == parts
    decreases |parts|
  {
    if |parts| == 1 {
      assert FindChar(parts[0], sep, 0).None?;
    } else {
      SplitJoin(parts[1..], sep);
      SplitFront(parts[0], sep, Join(parts[1..], sep));
      assert parts == [parts[0]] + parts[1..];
    }
  }

  /** The text before the first separator holds none, and the text around it
      rebuilds the whole. */
  lemma FirstSeparator(v: string, sep: char) returns (head: string, tail: string)
    requires FindChar(v, sep, 0).Some?
    ensures v == head + [sep] + tail && sep !in head && |tail| < |v|
  {
    var i := FindChar(v, sep, 0).value;
    head, tail := v[..i], v[i + 1..];
    assert v == head + [sep] + tail;
    forall j | 0 <= j < |head| ensures head[j] != sep {
      assert head[j] == v[j];
    }
  }

  /** Splitting at a separator splits the two sides independently. */
  lemma {:induction false} SplitAround(v: string, sep: char, w: string)
    ensures Split(v + [sep] + w, sep) == Split(v, sep) + Split(w, sep)
    decreases |v|
  {
    if FindChar(v, sep, 0).None? {
      SplitFront(v, sep, w);
    } else {
      var head, tail := FirstSeparator(v, sep);
      SplitAround(tail, sep, w);
      SplitAroundStep(head, tail, sep, w);
    }
  }

  /** One step of SplitAround: a separator-free head in front of both sides. */
  lemma SplitAroundStep(head: string, tail: string, sep: char, w: string)
    requires sep !in head
    requires Split(tail + [sep] + w, sep) == Split(tail, sep) + Split(w, sep)
    ensures Split(head + [sep] + tail + [sep] + w, sep) == Split(head + [sep] + tail, sep) + Split(w, sep)
  {
    SplitFront(head, sep, tail);
    Regroup(head + [sep] + tail, [sep], w);
    Regroup(head + [sep], tail, [sep] + w);
    Regroup(tail, [sep], w);
    SplitFront(head, sep, tail + [sep] + w);
    Regroup([head], Split(tail, sep), Split(w, sep));
  }

  /** Concatenation is associative. */
  lemma Regroup<T>(a: seq<T>, b: seq<T>, c: seq<T>)
    ensures a + b + c == a + (b + c)
  {
  }

  /** Lines of a, two separators, b and a final separator: those of a, a blank one,
      those of b and an empty last one. */
  lemma BlankLineBetween(a: string, b: string, sep: char)
    ensures Split(a + [sep] + [sep] + b + [sep], sep)
         == Split(a, sep) + [""] + Split(b, sep) + [""]
  {
    var w := [sep] + b + [sep];
    Regroup(a + [sep], [sep], b);
    Regroup(a + [sep], [sep] + b, [sep]);
    SplitAround(a, sep, w);
    SeparatorsAround(b, sep);
    var sa, sb := Split(a, sep), Split(b, sep);
    Regroup(sa + [""], sb, [""]);
    Regroup(sa, [""], sb + [""]);
    Regroup([""], sb, [""]);
  }

  /** Lines of b between two separators: b's lines with an empty one on each side. */
  lemma SeparatorsAround(b: string, sep: char)
    ensures Split([sep] + b + [sep], sep) == [""] + Split(b, sep) + [""]
  {
    SplitAround(b, sep, "");
    assert b + [sep] + "" == b + [sep];
    SplitJoin([""], sep);
    SplitAround("", sep, b + [sep]);
    Regroup([sep], b, [sep]);
    assert "" + [sep] + (b + [sep]) == [sep] + (b + [sep]);
    Regroup([""], Split(b, sep), [""]);
  }

  /** A separator-free text that occurs in no piece occurs nowhere in their join. */
  lemma {:induction false} NotInJoin(parts: seq<string>, sep: char, t: string)
    requires sep !in t && |t| > 0
    requires forall k :: 0 <= k < |parts| ==> !Contains(parts[k], t)
    ensures !Contains(Join(parts, sep), t)
    decreases |parts|
  {
    if |parts| >= 2 {
      NotInJoin(parts[1..], sep, t);
      var a, b := parts[0], Join(parts[1..], sep);
      var s := a + [sep] + b;
      forall i: nat ensures !OccursAt(s, t, i) {
        if i + |t| <= |a| {
          assert a[i..i + |t|] == s[i..i + |t|];
          assert !OccursAt(a, t, i);
        } else if i > |a| && i + |t| <= |s| {
          assert b[i - |a| - 1..i - |a| - 1 + |t|] == s[i..i + |t|];
          assert !OccursAt(b, t, i - |a| - 1);
        } else if i + |t| <= |s| {
          assert s[i..i + |t|][|a| - i] == s[|a|] == sep;
        }
      }
    }
  }

  /** A character that is no separator and in no piece is nowhere in their join. */
  lemma {:induction false} CharNotInJoin(parts: seq<string>, sep: char, c: char)
    requires c != sep
    requires forall k :: 0 <= k < |parts| ==> c !in parts[k]
    ensures c !in Join(parts, sep)
    decreases |parts|
  {
    if |parts| >= 2 {
      CharNotInJoin(parts[1..], sep, c);
    }
  }

  /** Where the k-th piece starts in a join. */
  function PieceStart(parts: seq<string>, k: nat): nat
    requires k <= |parts|
  {
    if k == 0 then 0 else PieceStart(parts, k - 1) + |parts[k - 1]| + 1
  }

  /** A join begins with its first piece's first character and ends with its last
      piece's last character. */
  lemma {:induction false} JoinEnds(parts: seq<string>, sep: char)
    requires |parts| >= 1 && |parts[|parts| - 1]| > 0
    ensures var s := Join(parts, sep); var z := parts[|parts| - 1];
      |s| > 0 && s[|s| - 1] == z[|z| - 1] && (|parts[0]| > 0 ==> s[0] == parts[0][0])
  {
    if |parts| > 1 {
      var rest := parts[1..];
      if |rest| > 1 {
        JoinEnds(rest, sep);
      }
      assert Join(parts, sep) == parts[0] + [sep] + Join(rest, sep);
    }
  }

  /** The k-th piece of a join sits at PieceStart(parts, k). */
  lemma {:induction false} PieceOccurs(parts: seq<string>, sep: char, k: nat)
    requires k < |parts|
    ensures OccursAt(Join(parts, sep), parts[k], PieceStart(parts, k))
    decreases k
  {
    if k == 0 {
      if |parts| > 1 {
        JoinFront(parts[0], parts[1..], sep);
        Regroup(parts[0], [sep], Join(parts[1..], sep));
        OccursFront(parts[0], [sep] + Join(parts[1..], sep));
      } else {
        OccursFront(parts[0], "");
      }
    } else {
      var rest := parts[1..];
      PieceOccurs(rest, sep, k - 1);
      ShiftedStart(parts, k);
      JoinFront(parts[0], rest, sep);
      assert rest[k - 1] == parts[k];
      OccursShifted(parts[0] + [sep], Join(rest, sep), parts[k], PieceStart(rest, k - 1));
    }
  }

  /** Three consecutive pieces of a join occur there together, with the separators
      between them, from the first one's start. */
  lemma {:induction false} PiecesOccur(parts: seq<string>, sep: char, k: nat)
    requires k + 2 < |parts|
    ensures OccursAt(Join(parts, sep), parts[k] + [sep] + parts[k + 1] + [sep] + parts[k + 2],
                     PieceStart(parts, k))
    decreases k
  {
    var run := parts[k] + [sep] + parts[k + 1] + [sep] + parts[k + 2];
    if k == 0 {
      var more := PiecesFront(parts, sep);
      OccursFront(run, more);
    } else {
      var rest := parts[1..];
      PiecesOccur(rest, sep, k - 1);
      assert rest[k - 1] == parts[k] && rest[k] == parts[k + 1] && rest[k + 1] == parts[k + 2];
      ShiftedStart(parts, k);
      JoinFront(parts[0], rest, sep);
      assert [parts[0]] + rest == parts;
      OccursShifted(parts[0] + [sep], Join(rest, sep), run, PieceStart(rest, k - 1));
    }
  }

  /** Whatever occurs in three consecutive pieces, joined, occurs in the whole join. */
  lemma PiecesContain(parts: seq<string>, sep: char, k: nat, t: string, o: nat)
    requires k + 2 < |parts|
    requires OccursAt(parts[k] + [sep] + parts[k + 1] + [sep] + parts[k + 2], t, o)
    ensures Contains(Join(parts, sep), t)
  {
    PiecesOccur(parts, sep, k);
    ContainsInner(Join(parts, sep), parts[k] + [sep] + parts[k + 1] + [sep] + parts[k + 2],
                  PieceStart(parts, k), t, o);
  }

  lemma PiecesFront(parts: seq<string>, sep: char) returns (more: string)
    requires 3 <= |parts|
    ensures Join(parts, sep) == parts[0] + [sep] + parts[1] + [sep] + parts[2] + more
  {
    var tail := Join(parts[2..], sep);
    assert parts[1..][1..] == parts[2..];
    assert parts[2..][1..] == parts[3..];
    more := if |parts| == 3 then "" else [sep] + Join(parts[3..], sep);
    assert tail == parts[2] + more;
    Regroup(parts[0] + [sep], parts[1] + [sep], tail);
    Regroup(parts[0] + [sep] + parts[1] + [sep], parts[2], more);
  }

  /** A text occurs at the front of anything it begins. */
  lemma OccursFront(t: string, rest: string)
    ensures OccursAt(t + rest, t, 0)
  {
    assert (t + rest)[..|t|] == t;
  }

  /** Where a + b occurs, a occurs and b occurs right behind it. */
  lemma OccursSplit(s: string, a: string, b: string, i: nat)
    requires OccursAt(s, a + b, i)
    ensures OccursAt(s, a, i) && OccursAt(s, b, i + |a|)
  {
    assert s[i..i + |a|] == (a + b)[..|a|];
    assert s[i + |a|..i + |a| + |b|] == (a + b)[|a|..];
  }

  /** An occurrence keeps its place, shifted, behind any prefix. */
  lemma OccursShifted(pre: string, b: string, t: string, o: nat)
    requires OccursAt(b, t, o)
    ensures OccursAt(pre + b, t, |pre| + o)
  {
    assert (pre + b)[|pre| + o..|pre| + o + |t|] == b[o..o + |t|];
  }

  lemma {:induction false} ShiftedStart(parts: seq<string>, k: nat)
    requires 1 <= k <= |parts|
    ensures PieceStart(parts, k) == |parts[0]| + 1 + PieceStart(parts[1..], k - 1)
    decreases k
  {
    if k > 1 {
      ShiftedStart(parts, k - 1);
    }
  }

  // ---------------------------------------------------------------------------
  // Decimal numerals: Number() on a digit string, String() on an array index

  predicate IsDigit(c: char)
  {
    '0' <= c <= '9'
  }

  predicate AllDigits(s: string)
  {
    forall k :: 0 <= k < |s| ==> IsDigit(s[k])
  }

  /** The value of a string of decimal digits ("" has value 0). */
  function DigitsValue(s: string): nat
    requires AllDigits(s)
  {
    if |s| == 0 then 0
    else DigitsValue(s[..|s| - 1]) * 10 + (s[|s| - 1] as int - '0' as int)
  }

  /** String(n) for a natural number: its shortest decimal numeral. */
  function DecimalString(n: nat): (s: string)
    ensures |s| >= 1 && AllDigits(s)
    ensures |s| > 1 ==> s[0] != '0'
  {
    if n < 10 then [('0' as int + n) as char]
    else DecimalString(n / 10) + [('0' as int + n % 10) as char]
  }

  /** Reading back the numeral of n gives n. */
  lemma {:induction false} DecimalRoundTrip(n: nat)
    ensures DigitsValue(DecimalString(n)) == n
  {
    if n >= 10 {
      DecimalRoundTrip(n / 10);
      var s := DecimalString(n);
      assert s[..|s| - 1] == DecimalString(n / 10);
    }
  }

  /** Different numbers have different numerals. */
  lemma DecimalInjective(m: nat, n: nat)
    requires DecimalString(m) == DecimalString(n)
    ensures m == n
  {
    DecimalRoundTrip(m);
    DecimalRoundTrip(n);
  }

  /** A JavaScript number as far as the generator needs: an integer or NaN. */
  datatype JsNumber = NaN | Num(value: int)

  /** Number(s) for the strings a version component can be: white space is trimmed,
      the empty string is 0, an optionally signed run of decimal digits is its exact
      value, and anything else is NaN. JavaScript instead rounds the value of a digit
      run to the nearest double, which loses precision above 2^53 and gives Infinity
      past about 1.8e308; this model does neither. */
  function ToNumber(s: string): (n: JsNumber)
    ensures Trim(s) == "" ==> n == Num(0)
    ensures AllDigits(Trim(s)) ==> n == Num(DigitsValue(Trim(s)))
    ensures n.NaN? ==> Trim(s) != "" && exists k :: 0 <= k < |Trim(s)| && !IsDigit(Trim(s)[k])
  {
    var t := Trim(s);
    if AllDigits(t) then Num(DigitsValue(t))
    else if |t| >= 2 && t[0] == '-' && AllDigits(t[1..]) then Num(0 - DigitsValue(t[1..]))
    else if |t| >= 2 && t[0] == '+' && AllDigits(t[1..]) then Num(DigitsValue(t[1..]))
    else NaN
  }

  /** Number() of a digit string is its decimal value: digits are not white space, so
      trim() leaves the string as it is. */
  lemma DigitsNumber(s: string)
    requires AllDigits(s)
    ensures ToNumber(s) == Num(DigitsValue(s))
  {
    if |s| > 0 {
      DigitNotSpace(s[0]);
      DigitNotSpace(s[|s| - 1]);
    }
    TrimUnchanged(s);
  }

  lemma DigitNotSpace(c: char)
    requires IsDigit(c)
    ensures !IsSpace(c)
  {
  }

  /** trim() leaves a string with no white space at either end as it is. */
  lemma TrimUnchanged(s: string)
    requires s != [] ==> !IsSpace(s[0]) && !IsSpace(s[|s| - 1])
    ensures Trim(s) == s
  {
    assert SkipSpaces(s, 0) == 0;
    assert TrimEndIndex(s, 0, |s|) == |s|;
  }
}
