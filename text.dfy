/** The JavaScript string primitives the concepts rely on: `trim`, `toLowerCase`,
    `startsWith`, `includes`, and `split`/`join` on a one-character separator. */
module Text {

  /** ECMAScript WhiteSpace and LineTerminator code points, the set `String.prototype.trim` removes. */
  predicate IsSpace(c: char) {
    || c == '\t' || c == '\n' || c == '\U{B}' || c == '\U{C}' || c == '\r' || c == ' '
    || c == '\U{A0}' || c == '\U{1680}' || ('\U{2000}' <= c <= '\U{200A}') || c == '\U{2028}'
    || c == '\U{2029}' || c == '\U{202F}' || c == '\U{205F}' || c == '\U{3000}' || c == '\U{FEFF}'
  }

  /** Drops leading white space. */
  function TrimStart(s: string): (r: string)
    ensures |r| <= |s| && r == s[|s| - |r|..]
    ensures r == [] || !IsSpace(r[0])
    ensures forall i :: 0 <= i < |s| - |r| ==> IsSpace(s[i])
  {
    if s != [] && IsSpace(s[0]) then TrimStart(s[1..]) else s
  }

  /** Text that does not start with white space has none to drop. */
  lemma TrimStartNone(s: string)
    requires s != [] && !IsSpace(s[0])
    ensures TrimStart(s) == s
  {
  }

  /** Drops trailing white space. */
  function TrimEnd(s: string): (r: string)
    ensures |r| <= |s| && r == s[..|r|]
    ensures r == [] || !IsSpace(r[|r| - 1])
    ensures forall i :: |r| <= i < |s| ==> IsSpace(s[i])
  {
    if s != [] && IsSpace(s[|s| - 1]) then TrimEnd(s[..|s| - 1]) else s
  }

  /** `s.trim()`: what is left neither starts nor ends with white space. */
  function Trim(s: string): (r: string)
    ensures |r| <= |s|
    ensures r == [] || (!IsSpace(r[0]) && !IsSpace(r[|r| - 1]))
  {
    var a := TrimStart(s);
    assert TrimEnd(a) == [] || TrimEnd(a)[0] == a[0];
    TrimEnd(a)
  }

  /** A run of white space, possibly empty. */
  predicate AllSpace(s: string) {
    forall i :: 0 <= i < |s| ==> IsSpace(s[i])
  }

  /** White space in front makes no difference to `trimStart`. */
  lemma {:induction false} TrimStartSpaces(a: string, x: string)
    requires AllSpace(a)
    ensures TrimStart(a + x) == TrimStart(x)
  {
    if a == [] {
      assert a + x == x;
    } else {
      assert (a + x)[0] == a[0];
      assert (a + x)[1..] == a[1..] + x;
      TrimStartSpaces(a[1..], x);
    }
  }

  /** White space behind makes no difference to `trimEnd`. */
  lemma {:induction false} TrimEndSpaces(x: string, b: string)
    requires AllSpace(b)
    ensures TrimEnd(x + b) == TrimEnd(x)
  {
    if b == [] {
      assert x + b == x;
    } else {
      var c := b[..|b| - 1];
      assert (x + b)[|x + b| - 1] == b[|b| - 1];
      assert (x + b)[..|x + b| - 1] == x + c;
      TrimEndSpaces(x, c);
    }
  }

  /** Any text is its trim with white space around it. */
  lemma {:induction false} TrimAround(s: string)
    ensures var t, i := Trim(s), |s| - |TrimStart(s)|;
      && i + |t| <= |s| && s == s[..i] + t + s[i + |t|..]
      && AllSpace(s[..i]) && AllSpace(s[i + |t|..])
  {
    TrimSlice(s);
    SpaceAround(s, Trim(s), |s| - |TrimStart(s)|);
  }

  /** Cuts a text into its leading white space, its trim and its trailing white space. */
  lemma {:induction false} CutSpace(s: string) returns (sp1: string, t: string, sp2: string)
    ensures s == sp1 + t + sp2 && AllSpace(sp1) && AllSpace(sp2)
    ensures t == [] || (!IsSpace(t[0]) && !IsSpace(t[|t| - 1]))
  {
    var i := |s| - |TrimStart(s)|;
    t := Trim(s);
    TrimAround(s);
    sp1, sp2 := s[..i], s[i + |t|..];
  }

  /** A slice with nothing but white space before and after it splits the text in three. */
  lemma SpaceAround(s: string, t: string, i: nat)
    requires OccursAt(s, t, i)
    requires forall j :: 0 <= j < i ==> IsSpace(s[j])
    requires forall j :: i + |t| <= j < |s| ==> IsSpace(s[j])
    ensures i + |t| <= |s| && s == s[..i] + t + s[i + |t|..]
    ensures AllSpace(s[..i]) && AllSpace(s[i + |t|..])
  {
    Pieces(s, t, i);
    SpaceSlice(s, 0, i);
    SpaceSlice(s, i + |t|, |s|);
  }

  /** A slice of characters that are all white space is a run of white space. */
  lemma SpaceSlice(s: string, i: nat, j: nat)
    requires i <= j <= |s|
    requires forall k :: i <= k < j ==> IsSpace(s[k])
    ensures AllSpace(s[i..j])
    ensures i == 0 ==> AllSpace(s[..j])
    ensures j == |s| ==> AllSpace(s[i..])
  {
    assert s[0..j] == s[..j] && s[i..|s|] == s[i..];
    forall k | 0 <= k < j - i ensures IsSpace(s[i..j][k]) {
      assert s[i..j][k] == s[i + k];
    }
  }

  /** A sequence is what comes before `t`, then `t`, then what comes after it. */
  lemma Pieces<T>(s: seq<T>, t: seq<T>, i: nat)
    requires i + |t| <= |s| && s[i..i + |t|] == t
    ensures s == s[..i] + t + s[i + |t|..]
  {
    assert s == s[..i] + s[i..i + |t|] + s[i + |t|..];
  }

  /** Concatenation regroups freely. */
  lemma Assoc<T>(a: seq<T>, b: seq<T>, c: seq<T>)
    ensures a + b + c == a + (b + c)
  {
  }

  /** Text without white space at its ends, between two runs of white space, is what `trim`
      gives back. */
  lemma {:induction false} TrimOf(a: string, m: string, b: string)
    requires AllSpace(a) && AllSpace(b)
    requires m == [] || (!IsSpace(m[0]) && !IsSpace(m[|m| - 1]))
    ensures Trim(a + m + b) == m
  {
    assert TrimStart(a + m + b) == TrimStart(m + b) by {
      Assoc(a, m, b);
      TrimStartSpaces(a, m + b);
    }
    if m == [] {
      assert TrimStart(m + b) == [] by {
        assert m + b == b;
        AllSpaceTrimStart(b);
      }
    } else {
      assert TrimStart(m + b) == m + b by {
        assert (m + b)[0] == m[0];
        TrimStartNone(m + b);
      }
      assert TrimEnd(m + b) == m by {
        TrimEndSpaces(m, b);
        assert m[..|m|] == m;
      }
    }
  }

  /** Text that neither starts nor ends with white space is its own trim. */
  lemma TrimNone(s: string)
    requires s != [] && !IsSpace(s[0]) && !IsSpace(s[|s| - 1])
    ensures Trim(s) == s
  {
    TrimStartNone(s);
    assert s[..|s|] == s;
  }

  /** A trimmed string neither starts nor ends with white space. */
  lemma {:induction false} TrimEnds(s: string)
    ensures var t := Trim(s); t == [] || (!IsSpace(t[0]) && !IsSpace(t[|t| - 1]))
  {
    var a := TrimStart(s);
    var t := TrimEnd(a);
    if t != [] {
      assert t == a[..|t|];
      assert t[0] == a[0];
    }
  }

  /** A prefix `t` of the suffix `a` of `s` from `i` occurs in `s` at `i`, and whatever
      holds of the characters of `a` after `t` holds of the characters of `s` after it. */
  lemma Inner(s: string, a: string, t: string, i: nat, p: char -> bool)
    requires i <= |s| && a == s[i..] && |t| <= |a| && t == a[..|t|]
    requires forall j :: |t| <= j < |a| ==> p(a[j])
    ensures OccursAt(s, t, i)
    ensures forall j :: i + |t| <= j < |s| ==> p(s[j])
  {
    assert s[i..i + |t|] == t;
    forall j | i + |t| <= j < |s| ensures p(s[j]) {
      assert s[j] == a[j - i];
    }
  }

  /** A trimmed string is the slice of the input that starts after its leading white space,
      and only white space follows it. */
  lemma {:induction false} TrimSlice(s: string)
    ensures var t, i := Trim(s), |s| - |TrimStart(s)|;
      && OccursAt(s, t, i)
      && (forall j :: 0 <= j < i ==> IsSpace(s[j]))
      && (forall j :: i + |t| <= j < |s| ==> IsSpace(s[j]))
  {
    var a := TrimStart(s);
    var t := TrimEnd(a);
    Inner(s, a, t, |s| - |a|, IsSpace);
  }

  /** A trimmed string neither starts nor ends with white space, and it is a slice of the
      input around which there is nothing but white space. */
  lemma {:induction false} TrimShape(s: string)
    ensures var t := Trim(s);
      && (t == [] || (!IsSpace(t[0]) && !IsSpace(t[|t| - 1])))
      && exists i :: OccursAt(s, t, i)
                     && (forall j :: 0 <= j < i ==> IsSpace(s[j]))
                     && (forall j :: i + |t| <= j < |s| ==> IsSpace(s[j]))
  {
    TrimEnds(s);
    TrimSlice(s);
    var i := |s| - |TrimStart(s)|;
    assert OccursAt(s, Trim(s), i);
  }

  /** Trimming twice is trimming once. */
  lemma {:induction false} TrimIdempotent(s: string)
    ensures Trim(Trim(s)) == Trim(s)
  {
    var t := Trim(s);
    TrimShape(s);
    assert TrimStart(t) == t;
    assert TrimEnd(t) == t;
  }

  /** `s.trim()` is empty exactly when `s` is white space only. */
  lemma {:induction false} TrimEmptyIff(s: string)
    ensures Trim(s) == [] <==> forall i :: 0 <= i < |s| ==> IsSpace(s[i])
  {
    if forall i :: 0 <= i < |s| ==> IsSpace(s[i]) {
      AllSpaceTrimStart(s);
    }
  }

  lemma {:induction false} AllSpaceTrimStart(s: string)
    requires forall i :: 0 <= i < |s| ==> IsSpace(s[i])
    ensures TrimStart(s) == []
  {
    if s != [] {
      AllSpaceTrimStart(s[1..]);
    }
  }

  /** ASCII upper-case letters to lower case; everything else unchanged. */
  function LowerChar(c: char): (d: char)
    ensures ('A' <= c <= 'Z') ==> 'a' <= d <= 'z'
    ensures !('A' <= c <= 'Z') ==> d == c
  {
    if 'A' <= c <= 'Z' then (c as int - 'A' as int + 'a' as int) as char else c
  }

  /** `s.toLowerCase()`, restricted to the ASCII letters. */
  function Lower(s: string): (r: string)
    ensures |r| == |s|
    ensures forall i :: 0 <= i < |s| ==> r[i] == LowerChar(s[i])
    ensures forall i :: 0 <= i < |r| ==> !('A' <= r[i] <= 'Z')
  {
    seq(|s|, i requires 0 <= i < |s| => LowerChar(s[i]))
  }

  /** Lower-casing is idempotent and leaves white space and non-letters in place. */
  lemma {:induction false} LowerIdempotent(s: string)
    ensures Lower(Lower(s)) == Lower(s)
    ensures forall c :: c in s && !('A' <= c <= 'Z') ==> c in Lower(s)
  {
    forall c | c in s && !('A' <= c <= 'Z') ensures c in Lower(s) {
      var i :| 0 <= i < |s| && s[i] == c;
      assert Lower(s)[i] == c;
    }
  }

  /** `s.startsWith(p)`. */
  predicate StartsWith(s: string, p: string) {
    |p| <= |s| && s[..|p|] == p
  }

  /** `t` occurs in `s` at offset `i`. */
  predicate OccursAt(s: string, t: string, i: int) {
    0 <= i && i + |t| <= |s| && s[i..i + |t|] == t
  }

  /** `s.includes(t)`, scanning offsets from the left. */
  function Includes(s: string, t: string): (b: bool)
    ensures b ==> exists i :: OccursAt(s, t, i)
  {
    if StartsWith(s, t) then
      assert OccursAt(s, t, 0);
      true
    else if s == [] then false
    else
      var b := Includes(s[1..], t);
      if b then
        var i :| OccursAt(s[1..], t, i);
        assert OccursAt(s, t, i + 1) by { assert s[1..][i..i + |t|] == s[i + 1..i + 1 + |t|]; }
        true
      else false
  }

  /** `Includes` finds every occurrence: it is exactly "occurs at some offset". */
  lemma {:induction false} IncludesComplete(s: string, t: string, i: int)
    requires OccursAt(s, t, i)
    ensures Includes(s, t)
    decreases i
  {
    if i > 0 {
      assert s[1..][i - 1..i - 1 + |t|] == s[i..i + |t|];
      IncludesComplete(s[1..], t, i - 1);
    } else {
      assert StartsWith(s, t);
    }
  }

  /** Looking for a one-character string is looking for the character. */
  lemma {:induction false} IncludesChar(s: string, c: char)
    ensures Includes(s, [c]) <==> c in s
  {
    if c in s {
      var i :| 0 <= i < |s| && s[i] == c;
      assert OccursAt(s, [c], i) by { assert s[i..i + 1] == [s[i]]; }
      IncludesComplete(s, [c], i);
    }
    if Includes(s, [c]) {
      var i :| OccursAt(s, [c], i);
      assert s[i] == s[i..i + 1][0];
    }
  }

  /** Index of the first `c` in `s`, or `|s|` when there is none. */
  function IndexOf(s: string, c: char): (i: nat)
    ensures i <= |s|
    ensures i < |s| ==> s[i] == c
  {
    if s == [] then 0 else if s[0] == c then 0 else 1 + IndexOf(s[1..], c)
  }

  /** No `c` comes before the one `IndexOf` finds, so it finds one exactly when there is one. */
  lemma {:induction false} IndexOfFinds(s: string, c: char)
    ensures forall j :: 0 <= j < IndexOf(s, c) ==> s[j] != c
    ensures IndexOf(s, c) < |s| <==> c in s
  {
    if s != [] && s[0] != c {
      IndexOfFinds(s[1..], c);
      assert forall j :: 1 <= j < |s| ==> s[j] == s[1..][j - 1];
    }
  }

  /** `s.split(c)` for a one-character separator: the text up to the first `c`, then the parts
      of what follows it. */
  function Split(s: string, c: char): (parts: seq<string>)
    ensures |parts| >= 1
    decreases |s|
  {
    var i := IndexOf(s, c);
    if i == |s| then [s] else [s[..i]] + Split(s[i + 1..], c)
  }

  /** Splitting, one part at a time; the first part runs up to the first `c`, and there is
      more than one part exactly when there is a `c`. */
  lemma {:induction false} SplitStep(s: string, c: char)
    ensures var i, parts := IndexOf(s, c), Split(s, c);
      && parts == (if i == |s| then [s] else [s[..i]] + Split(s[i + 1..], c))
      && parts[0] == s[..i]
      && (|parts| == 1 <==> i == |s|)
  {
    var i := IndexOf(s, c);
    if i == |s| {
      assert s[..i] == s;
    } else {
      var rest := Split(s[i + 1..], c);
      assert Split(s, c) == [s[..i]] + rest;
      assert |[s[..i]] + rest| == 1 + |rest|;
    }
  }

  /** The text after the last `c`. */
  function LastPart(s: string, c: char): string
    decreases |s|
  {
    var i := IndexOf(s, c);
    if i == |s| then s else LastPart(s[i + 1..], c)
  }

  /** `LastPart` is `s.split(c).pop()`. */
  lemma {:induction false} LastPartIsLastOfSplit(s: string, c: char)
    ensures var parts := Split(s, c); LastPart(s, c) == parts[|parts| - 1]
    decreases |s|
  {
    var i := IndexOf(s, c);
    SplitStep(s, c);
    if i < |s| {
      LastPartIsLastOfSplit(s[i + 1..], c);
    }
  }

  /** Searching a concatenation finds the first part's `c` if it has one. */
  lemma {:induction false} IndexOfAppend(a: string, b: string, c: char)
    ensures IndexOf(a + b, c) == if IndexOf(a, c) < |a| then IndexOf(a, c) else |a| + IndexOf(b, c)
  {
    if a == [] {
      assert a + b == b;
    } else {
      assert (a + b)[0] == a[0];
      if a[0] != c {
        assert (a + b)[1..] == a[1..] + b;
        IndexOfAppend(a[1..], b, c);
      }
    }
  }

  /** The part after the last separator is whatever follows it, when that holds no separator. */
  lemma {:induction false} LastPartAfter(s: string, c: char, t: string)
    requires c !in t
    ensures LastPart(s + [c] + t, c) == t
    decreases |s|
  {
    var w := [c] + t;
    var u := s + w;
    assert u == s + [c] + t;
    var i := IndexOf(s, c);
    assert IndexOf(u, c) == if i < |s| then i else |s| by {
      IndexOfAppend(s, w, c);
      assert w[0] == c;
    }
    if i < |s| {
      DropAppend(s, w, i + 1);
      assert s[i + 1..] + w == s[i + 1..] + [c] + t;
      LastPartAfter(s[i + 1..], c, t);
    } else {
      DropAppend(s, w, i + 1);
      IndexOfFinds(t, c);
    }
  }

  /** Dropping a prefix no longer than the first part of a concatenation. */
  lemma DropAppend<T>(a: seq<T>, b: seq<T>, k: nat)
    requires k <= |a| + 1 && |b| >= 1
    ensures k <= |a| ==> (a + b)[k..] == a[k..] + b
    ensures k == |a| + 1 ==> (a + b)[k..] == b[1..]
  {
  }

  /** `parts.join(c)`. */
  function Join(parts: seq<string>, c: char): string {
    if parts == [] then []
    else if |parts| == 1 then parts[0]
    else parts[0] + [c] + Join(parts[1..], c)
  }

  /** Splitting on `c` and joining with `c` gives the string back. */
  lemma {:induction false} JoinSplit(s: string, c: char)
    ensures Join(Split(s, c), c) == s
    decreases |s|
  {
    var i := IndexOf(s, c);
    if i < |s| {
      var rest := Split(s[i + 1..], c);
      var parts := Split(s, c);
      assert |parts| >= 2 && parts[0] == s[..i] && parts[1..] == rest by {
        SplitStep(s, c);
      }
      assert Join(parts, c) == parts[0] + [c] + Join(parts[1..], c);
      assert Join(parts[1..], c) == s[i + 1..] by {
        JoinSplit(s[i + 1..], c);
      }
      Around(s, i);
    } else {
      SplitStep(s, c);
    }
  }

  /** A string is what comes before position `i`, the character there, and what follows. */
  lemma Around(s: string, i: nat)
    requires i < |s|
    ensures s == s[..i] + [s[i]] + s[i + 1..]
  {
  }

  /** The parts after the first, joined back with the separator, are exactly the text after
      the first separator: a separator inside that text survives the round trip. */
  lemma {:induction false} SplitRest(s: string, c: char)
    requires c in s
    ensures var parts := Split(s, c);
      |parts| >= 2 && Join(parts[1..], c) == s[IndexOf(s, c) + 1..]
  {
    var i := IndexOf(s, c);
    assert i < |s| by {
      IndexOfFinds(s, c);
    }
    SplitStep(s, c);
    assert Split(s, c)[1..] == Split(s[i + 1..], c);
    JoinSplit(s[i + 1..], c);
  }
}
