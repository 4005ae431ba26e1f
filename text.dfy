/** String helpers shared by the components: ASCII character classes, the
  * JavaScript `trim`, `toLowerCase`, `startsWith`, `includes`, `split` and
  * `join` on `seq<char>`, and decimal rendering of natural numbers. */
module Text {

  /** Python's and JavaScript's `\w`, restricted to ASCII. */
  predicate IsWordChar(c: char) {
    'a' <= c <= 'z' || 'A' <= c <= 'Z' || '0' <= c <= '9' || c == '_'
  }

  /** The class `[a-zA-Z0-9]`. */
  predicate IsAlnum(c: char) {
    'a' <= c <= 'z' || 'A' <= c <= 'Z' || '0' <= c <= '9'
  }

  /** The ASCII characters JavaScript's `trim` removes. */
  predicate IsSpace(c: char) {
    c == ' ' || c == '\t' || c == '\n' || c == '\r' || c == '\U{000B}' || c == '\U{000C}'
  }

  function LowerChar(c: char): char {
    if 'A' <= c <= 'Z' then (c as int + 32) as char else c
  }

  function UpperChar(c: char): char {
    if 'a' <= c <= 'z' then (c as int - 32) as char else c
  }

  /** `toLowerCase`, ASCII letters only. */
  function ToLower(s: string): string {
    seq(|s|, i requires 0 <= i < |s| => LowerChar(s[i]))
  }

  /** `toUpperCase`, ASCII letters only. */
  function ToUpper(s: string): string {
    seq(|s|, i requires 0 <= i < |s| => UpperChar(s[i]))
  }

  // Small facts of sequence algebra, kept in lemmas of their own so that the
  // proofs that use them do not have to rediscover them.

  lemma AppendAssoc<T>(a: seq<T>, b: seq<T>, c: seq<T>)
    ensures a + (b + c) == (a + b) + c
  {
  }

  lemma TakeCons<T>(s: seq<T>, k: nat)
    requires 0 < k <= |s|
    ensures s[..k] == [s[0]] + s[1..][..k - 1]
  {
  }

  lemma TakeAppend<T>(s: seq<T>, k: nat, n: nat)
    requires k + n <= |s|
    ensures s[..k + n] == s[..k] + s[k..][..n]
  {
  }

  predicate StartsWith(s: string, p: string) {
    |p| <= |s| && s[..|p|] == p
  }

  predicate EndsWith(s: string, p: string) {
    |p| <= |s| && s[|s| - |p|..] == p
  }

  /** `s.includes(p)`: p occurs somewhere in s. */
  predicate Contains(s: string, p: string) {
    exists i :: 0 <= i <= |s| && StartsWith(s[i..], p)
  }

  /** An occurrence in a + b either starts inside a or lies wholly in b. */
  lemma ContainsAppend(a: string, b: string, p: string)
    requires !Contains(b, p)
    requires forall i :: 0 <= i < |a| ==> !StartsWith((a + b)[i..], p)
    ensures !Contains(a + b, p)
  {
    forall i | |a| <= i <= |a + b| ensures !StartsWith((a + b)[i..], p) {
      assert (a + b)[i..] == b[i - |a|..];
    }
  }

  lemma DropAppendOffset<T>(a: seq<T>, b: seq<T>, k: nat)
    requires k <= |b|
    ensures (a + b)[|a| + k..] == b[k..]
    ensures k < |b| ==> (a + b)[|a| + k] == b[k]
  {
  }

  lemma TakeOfDropAppend<T>(a: seq<T>, b: seq<T>, i: nat, n: nat)
    requires i + n <= |a|
    ensures (a + b)[i..][..n] == a[i..i + n]
  {
  }

  /** A fixed text whose first character is the only place a p could start,
    * and where p does not start, begins no occurrence of p, whatever follows. */
  lemma PrefixStartsNoOccurrence(a: string, b: string, p: string)
    requires |p| <= |a| && a[..|p|] != p && p != []
    requires p[0] !in a[1..]
    requires !Contains(b, p)
    ensures !Contains(a + b, p)
  {
    forall i | 0 <= i < |a| ensures !StartsWith((a + b)[i..], p) {
      if i == 0 {
        TakeOfDropAppend(a, b, 0, |p|);
      } else {
        assert (a + b)[i..][0] == a[1..][i - 1];
      }
    }
    ContainsAppend(a, b, p);
  }

  /** A text that departs from p at an index below |p| does not start with p. */
  lemma MismatchAt(s: string, p: string, k: nat)
    requires k < |p| && (k >= |s| || s[k] != p[k])
    ensures !StartsWith(s, p)
  {
    if |p| <= |s| {
      assert s[..|p|][k] == s[k];
    }
  }

  /** Every occurrence of `from` replaced by `to`. */
  function ReplaceChar(s: string, from: char, to: char): string {
    seq(|s|, i requires 0 <= i < |s| => if s[i] == from then to else s[i])
  }

  /** Keeps the characters of s that satisfy p, in order. */
  function Keep(s: string, p: char -> bool): (r: string)
    ensures |r| <= |s|
    ensures forall i :: 0 <= i < |r| ==> p(r[i])
    decreases |s|
  {
    if s == [] then [] else (if p(s[0]) then [s[0]] else []) + Keep(s[1..], p)
  }

  /** Keep changes nothing when every character qualifies. */
  lemma {:induction false} KeepAll(s: string, p: char -> bool)
    requires forall i :: 0 <= i < |s| ==> p(s[i])
    ensures Keep(s, p) == s
    decreases |s|
  {
    if s != [] {
      KeepAll(s[1..], p);
      assert [s[0]] + s[1..] == s;
    }
  }

  function TrimStart(s: string): (r: string)
    ensures r == [] || !IsSpace(r[0])
    ensures |r| <= |s| && r == s[|s| - |r|..]
    decreases |s|
  {
    if s != [] && IsSpace(s[0]) then TrimStart(s[1..]) else s
  }

  function TrimEnd(s: string): (r: string)
    ensures r == [] || !IsSpace(r[|r| - 1])
    ensures |r| <= |s| && r == s[..|r|]
    decreases |s|
  {
    if s != [] && IsSpace(s[|s| - 1]) then TrimEnd(s[..|s| - 1]) else s
  }

  /** JavaScript's `trim`. */
  function Trim(s: string): string {
    TrimEnd(TrimStart(s))
  }

  /** JavaScript's `s.split(sep)` for a one-character separator: the pieces
    * between separators, so that there is always at least one piece. */
  function Split(s: string, sep: char): (r: seq<string>)
    ensures |r| >= 1
    ensures forall k :: 0 <= k < |r| ==> sep !in r[k]
    decreases |s|
  {
    if s == [] then [""]
    else
      var rest := Split(s[1..], sep);
      if s[0] == sep then [""] + rest else [[s[0]] + rest[0]] + rest[1..]
  }

  /** JavaScript's `parts.join(sep)` for a one-character separator. */
  function Join(parts: seq<string>, sep: char): string
    decreases |parts|
  {
    if parts == [] then ""
    else if |parts| == 1 then parts[0]
    else parts[0] + [sep] + Join(parts[1..], sep)
  }

  /** Splitting and joining again gives back the original text. */
  lemma {:induction false} JoinSplit(s: string, sep: char)
    ensures Join(Split(s, sep), sep) == s
    decreases |s|
  {
    if s != [] {
      JoinSplit(s[1..], sep);
      var rest := Split(s[1..], sep);
      if s[0] != sep {
        if |rest| > 1 {
          assert Join(rest, sep) == rest[0] + [sep] + Join(rest[1..], sep);
          assert [[s[0]] + rest[0]] + rest[1..] == [[s[0]] + rest[0]] + rest[1..];
          assert Join([[s[0]] + rest[0]] + rest[1..], sep)
              == ([s[0]] + rest[0]) + [sep] + Join(rest[1..], sep);
        }
        assert [s[0]] + s[1..] == s;
      } else {
        assert Join([""] + rest, sep) == [sep] + Join(rest, sep);
        assert [sep] + s[1..] == s;
      }
    }
  }

  /** Splitting a join of separator-free pieces gives back the pieces. */
  lemma {:induction false} SplitJoin(parts: seq<string>, sep: char)
    requires |parts| >= 1
    requires forall k :: 0 <= k < |parts| ==> sep !in parts[k]
    ensures Split(Join(parts, sep), sep) == parts
    decreases |parts|, |parts[0]|
  {
    if |parts| == 1 {
      SplitNoSep(parts[0], sep);
    } else if parts[0] == [] {
      SplitJoin(parts[1..], sep);
      assert Join(parts, sep) == [sep] + Join(parts[1..], sep);
      assert ([sep] + Join(parts[1..], sep))[1..] == Join(parts[1..], sep);
      assert parts == [""] + parts[1..];
    } else {
      var tail := [parts[0][1..]] + parts[1..];
      assert parts[0] == [parts[0][0]] + parts[0][1..];
      assert tail[0] == parts[0][1..] && tail[1..] == parts[1..];
      assert Join(tail, sep) == parts[0][1..] + [sep] + Join(parts[1..], sep);
      SplitJoin(tail, sep);
      var j := Join(parts, sep);
      assert j == [parts[0][0]] + Join(tail, sep);
      assert j[0] == parts[0][0] && j[1..] == Join(tail, sep);
      assert parts[0][0] != sep;
      assert parts == [[parts[0][0]] + tail[0]] + tail[1..];
    }
  }

  lemma {:induction false} SplitNoSep(s: string, sep: char)
    requires sep !in s
    ensures Split(s, sep) == [s]
    decreases |s|
  {
    if s != [] {
      SplitNoSep(s[1..], sep);
      assert [s[0]] + s[1..] == s;
    }
  }

  /** A separator-free piece followed by a separator splits off as the
    * first piece. */
  lemma {:induction false} SplitAfterPiece(k: string, sep: char, r: string)
    requires sep !in k
    ensures Split(k + [sep] + r, sep) == [k] + Split(r, sep)
    decreases |k|
  {
    if k == [] {
      assert k + [sep] + r == [sep] + r;
      assert ([sep] + r)[1..] == r;
    } else {
      SplitAfterPiece(k[1..], sep, r);
      var s := k + [sep] + r;
      assert s[0] == k[0] && s[1..] == k[1..] + [sep] + r;
      assert [k[0]] + k[1..] == k;
    }
  }

  /** `split` yields more than one piece exactly when the separator occurs. */
  lemma {:induction false} SplitSeveral(s: string, sep: char)
    ensures |Split(s, sep)| > 1 <==> sep in s
    decreases |s|
  {
    if s != [] {
      SplitSeveral(s[1..], sep);
      assert s == [s[0]] + s[1..];
    }
  }

  /** The last piece of `s.split(sep)`, i.e. `split(sep).pop()`. */
  function LastPiece(s: string, sep: char): (r: string)
    ensures sep !in r
    ensures EndsWith(s, r)
    ensures sep !in s ==> r == s
    decreases |s|
  {
    if s == [] then ""
    else if s[|s| - 1] == sep then ""
    else LastPiece(s[..|s| - 1], sep) + [s[|s| - 1]]
  }

  /** Splitting a text that starts with a character other than the
    * separator: as many pieces as the rest gives, that character joined to
    * the first. */
  lemma SplitConsLast(x: char, u: string, sep: char)
    requires x != sep
    ensures var p := Split([x] + u, sep);
      var q := Split(u, sep);
      |p| == |q| && p[|p| - 1] == if |q| > 1 then q[|q| - 1] else [x] + q[0]
  {
    assert ([x] + u)[0] == x && ([x] + u)[1..] == u;
  }

  /** A leading separator opens an empty first piece. */
  lemma SplitConsSep(u: string, sep: char)
    ensures Split([sep] + u, sep) == [""] + Split(u, sep)
  {
    assert ([sep] + u)[0] == sep && ([sep] + u)[1..] == u;
  }

  /** Splitting a text with one more character at its end: a separator opens
    * a new empty last piece, any other character extends the last piece. */
  lemma {:induction false} SplitSnocLast(s: string, c: char, sep: char)
    ensures var parts := Split(s, sep);
      var parts' := Split(s + [c], sep);
      |parts'| == |parts| + (if c == sep then 1 else 0) &&
      parts'[|parts'| - 1] == if c == sep then "" else parts[|parts| - 1] + [c]
    decreases |s|
  {
    if s == [] {
      assert [c][1..] == [];
    } else {
      var u := s[1..];
      SplitSnocLast(u, c, sep);
      assert s == [s[0]] + u;
      assert s + [c] == [s[0]] + (u + [c]);
      if s[0] == sep {
        SplitConsSep(u, sep);
        SplitConsSep(u + [c], sep);
      } else {
        SplitSnocAfterCons(s[0], u, c, sep);
      }
    }
  }

  /** The step of `SplitSnocLast` for a first character that is no separator. */
  lemma SplitSnocAfterCons(x: char, u: string, c: char, sep: char)
    requires x != sep
    requires var parts, parts' := Split(u, sep), Split(u + [c], sep);
      |parts'| == |parts| + (if c == sep then 1 else 0) &&
      parts'[|parts'| - 1] == if c == sep then "" else parts[|parts| - 1] + [c]
    ensures var parts, parts' := Split([x] + u, sep), Split([x] + (u + [c]), sep);
      |parts'| == |parts| + (if c == sep then 1 else 0) &&
      parts'[|parts'| - 1] == if c == sep then "" else parts[|parts| - 1] + [c]
  {
    SplitConsLast(x, u, sep);
    SplitConsLast(x, u + [c], sep);
    var rest := Split(u, sep);
    if c != sep && |rest| == 1 {
      assert [x] + (rest[0] + [c]) == ([x] + rest[0]) + [c];
    }
  }

  /** `s.split(sep).pop()` is the last piece. */
  lemma {:induction false} LastPieceIsLastSplit(s: string, sep: char)
    ensures LastPiece(s, sep) == Split(s, sep)[|Split(s, sep)| - 1]
    decreases |s|
  {
    if s != [] {
      var init := s[..|s| - 1];
      var c := s[|s| - 1];
      LastPieceIsLastSplit(init, sep);
      SplitSnocLast(init, c, sep);
      assert init + [c] == s;
    }
  }

  function DigitChar(d: nat): char
    requires d < 10
  {
    ['0', '1', '2', '3', '4', '5', '6', '7', '8', '9'][d]
  }

  /** Decimal rendering of a natural number, as a template literal shows it. */
  function NatToString(n: nat): (r: string)
    ensures |r| >= 1
    ensures forall i :: 0 <= i < |r| ==> '0' <= r[i] <= '9'
  {
    if n < 10 then [DigitChar(n)] else NatToString(n / 10) + [DigitChar(n % 10)]
  }
}
