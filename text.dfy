/** String helpers shared by every output compiler: JavaScript's `indexOf`,
    `replace` (first occurrence and global), `join` and `trim`, on `seq<char>`. */
module Text {

  datatype Option<T> = None | Some(value: T)

  /** No element occurs twice. */
  predicate Distinct<T(==)>(s: seq<T>) {
    forall i, j :: 0 <= i < j < |s| ==> s[i] != s[j]
  }

  /** `p` occurs in `s` at index `i`. */
  predicate MatchAt(s: string, p: string, i: nat) {
    i + |p| <= |s| && s[i..i + |p|] == p
  }

  ghost predicate Occurs(s: string, p: string) {
    exists i: nat :: MatchAt(s, p, i)
  }

  /** `String.prototype.indexOf`: the first index where `p` occurs. */
  function FindFirst(s: string, p: string): (r: Option<nat>)
    ensures r.Some? ==> r.value + |p| <= |s|
    decreases |s|
  {
    if |s| < |p| then None
    else if s[..|p|] == p then Some(0)
    else
      match FindFirst(s[1..], p)
      case None => None
      case Some(k) => Some(k + 1)
  }

  /** FindFirst finds nothing exactly when `p` does not occur, and otherwise
      the leftmost occurrence. */
  lemma {:induction false} FindFirstSpec(s: string, p: string)
    ensures FindFirst(s, p).None? <==> !Occurs(s, p)
    ensures FindFirst(s, p).Some? ==>
      var i := FindFirst(s, p).value;
      MatchAt(s, p, i) && forall j: nat :: j < i ==> !MatchAt(s, p, j)
    decreases |s|
  {
    if |s| < |p| {
      assert forall i: nat :: !MatchAt(s, p, i);
    } else if s[..|p|] == p {
      assert MatchAt(s, p, 0);
    } else {
      assert !MatchAt(s, p, 0);
      FindFirstSpec(s[1..], p);
      ShiftMatch(s, p);
      match FindFirst(s[1..], p)
      case None =>
        assert forall i: nat :: !MatchAt(s, p, i) by {
          forall i: nat ensures !MatchAt(s, p, i) {
            if i > 0 { assert !MatchAt(s[1..], p, i - 1); }
          }
        }
      case Some(k) =>
        assert forall j: nat :: j < k + 1 ==> !MatchAt(s, p, j) by {
          forall j: nat | j < k + 1 ensures !MatchAt(s, p, j) {
            if j > 0 { assert !MatchAt(s[1..], p, j - 1); }
          }
        }
    }
  }

  /** Matches in `s[1..]` are the matches in `s` shifted by one. */
  lemma ShiftMatch(s: string, p: string)
    requires |s| > 0
    ensures forall j: nat :: MatchAt(s[1..], p, j) <==> MatchAt(s, p, j + 1)
  {
    forall j: nat
      ensures MatchAt(s[1..], p, j) <==> MatchAt(s, p, j + 1)
    {
      if j + |p| <= |s[1..]| {
        assert s[1..][j..j + |p|] == s[j + 1..j + 1 + |p|];
      }
    }
  }

  /** `s.replace(p, r)` with a string pattern: only the first occurrence. */
  function ReplaceFirst(s: string, p: string, r: string): (t: string)
    ensures !Occurs(s, p) ==> t == s
  {
    FindFirstSpec(s, p);
    match FindFirst(s, p)
    case None => s
    case Some(i) => s[..i] + r + s[i + |p|..]
  }

  /** The first occurrence of `p` is the one replaced. */
  lemma ReplaceFirstAt(s: string, p: string, r: string, pre: string, post: string)
    requires s == pre + p + post
    requires forall j: nat :: j < |pre| ==> !MatchAt(s, p, j)
    ensures ReplaceFirst(s, p, r) == pre + r + post
  {
    FindFirstSpec(s, p);
    assert s[|pre|..|pre| + |p|] == p;
    assert MatchAt(s, p, |pre|);
    assert s[..|pre|] == pre && s[|pre| + |p|..] == post;
  }

  /** The placeholder `${id}` a content item fills. */
  function Token(id: string): (t: string)
    ensures |t| == |id| + 3
  {
    "${" + id + "}"
  }

  /** `s.replace(/p/g, r)`: every non-overlapping occurrence, left to right,
      the search resuming after each replaced match. */
  function ReplaceAll(s: string, p: string, r: string): (t: string)
    requires |p| > 0
    ensures |p| <= |r| ==> |s| <= |t|
    ensures |r| <= |p| ==> |t| <= |s|
    decreases |s|
  {
    match FindFirst(s, p)
    case None => s
    case Some(i) => s[..i] + r + ReplaceAll(s[i + |p|..], p, r)
  }

  /** Number of matches `ReplaceAll` replaces. */
  function CountMatches(s: string, p: string): nat
    requires |p| > 0
    decreases |s|
  {
    match FindFirst(s, p)
    case None => 0
    case Some(i) => 1 + CountMatches(s[i + |p|..], p)
  }

  /** Without an occurrence of the pattern, nothing is replaced. */
  lemma ReplaceAllAbsent(s: string, p: string, r: string)
    requires |p| > 0 && !Occurs(s, p)
    ensures ReplaceAll(s, p, r) == s
  {
    FindFirstSpec(s, p);
  }

  /** Replacing a token by itself changes nothing. */
  lemma {:induction false} ReplaceAllSelf(s: string, p: string)
    requires |p| > 0
    ensures ReplaceAll(s, p, p) == s
    decreases |s|
  {
    match FindFirst(s, p)
    case None =>
    case Some(i) =>
      FindFirstSpec(s, p);
      ReplaceAllSelf(s[i + |p|..], p);
      assert s == s[..i] + p + s[i + |p|..];
  }

  /** Each replaced match changes the length by |r| - |p|. */
  lemma {:induction false} ReplaceAllLength(s: string, p: string, r: string)
    requires |p| > 0
    ensures |ReplaceAll(s, p, r)| == |s| + CountMatches(s, p) * (|r| - |p|)
    decreases |s|
  {
    match FindFirst(s, p)
    case None =>
    case Some(i) =>
      var rest := s[i + |p|..];
      ReplaceAllLength(rest, p, r);
      var c := CountMatches(rest, p);
      ReplaceAllUnfold(s, p, r, i);
      LengthArith(|s|, i, |p|, |r|, |rest|, c);
  }

  /** One replaced match and the rest of the string. */
  lemma {:induction false} ReplaceAllUnfold(s: string, p: string, r: string, i: nat)
    requires |p| > 0 && FindFirst(s, p) == Some(i)
    ensures i + |p| <= |s|
    ensures ReplaceAll(s, p, r) == s[..i] + r + ReplaceAll(s[i + |p|..], p, r)
    ensures CountMatches(s, p) == 1 + CountMatches(s[i + |p|..], p)
  {
  }

  lemma LengthArith(n: int, i: int, lp: int, lr: int, lrest: int, c: int)
    requires n == i + lp + lrest
    ensures i + lr + (lrest + c * (lr - lp)) == n + (1 + c) * (lr - lp)
  {
    assert (1 + c) * (lr - lp) == (lr - lp) + c * (lr - lp);
  }

  /** `Array.prototype.join(sep)`. */
  function Join(parts: seq<string>, sep: string): (s: string)
    ensures parts == [] ==> s == ""
    ensures |parts| == 1 ==> s == parts[0]
  {
    if parts == [] then ""
    else if |parts| == 1 then parts[0]
    else parts[0] + sep + Join(parts[1..], sep)
  }

  /** Joining a longer list appends one separator and the new part. */
  lemma {:induction false} JoinSnoc(parts: seq<string>, x: string, sep: string)
    requires parts != []
    ensures Join(parts + [x], sep) == Join(parts, sep) + sep + x
    decreases |parts|
  {
    if |parts| == 1 {
      assert parts + [x] == [parts[0], x];
    } else {
      assert (parts + [x])[1..] == parts[1..] + [x];
      JoinSnoc(parts[1..], x, sep);
    }
  }

  /** The characters ECMAScript's `trim` removes: WhiteSpace and LineTerminator. */
  predicate IsSpace(c: char) {
    c == ' ' || c == '\t' || c == '\n' || c == '\r' || c == '\U{B}' || c == '\U{C}'
    || c == '\U{A0}' || c == '\U{1680}' || ('\U{2000}' <= c <= '\U{200A}')
    || c == '\U{2028}' || c == '\U{2029}' || c == '\U{202F}' || c == '\U{205F}'
    || c == '\U{3000}' || c == '\U{FEFF}'
  }

  predicate AllSpace(s: string) {
    forall k :: 0 <= k < |s| ==> IsSpace(s[k])
  }

  function TrimStart(s: string): (t: string)
    ensures |t| <= |s| && t == s[|s| - |t|..]
    ensures AllSpace(s[..|s| - |t|])
    ensures t != [] ==> !IsSpace(t[0])
  {
    if s != [] && IsSpace(s[0]) then
      var t := TrimStart(s[1..]);
      assert s[..|s| - |t|] == [s[0]] + s[1..][..|s[1..]| - |t|];
      assert s[|s| - |t|..] == s[1..][|s[1..]| - |t|..];
      t
    else s
  }

  function TrimEnd(s: string): (t: string)
    ensures |t| <= |s| && t == s[..|t|]
    ensures AllSpace(s[|t|..])
    ensures t != [] ==> !IsSpace(t[|t| - 1])
  {
    if s != [] && IsSpace(s[|s| - 1]) then
      var t := TrimEnd(s[..|s| - 1]);
      assert s[|t|..] == s[..|s| - 1][|t|..] + [s[|s| - 1]];
      t
    else s
  }

  /** `String.prototype.trim`: `s` is the result framed by white space, and
      the result neither starts nor ends with white space. */
  function Trim(s: string): (t: string)
    ensures |t| <= |s|
    ensures t != [] ==> !IsSpace(t[0]) && !IsSpace(t[|t| - 1])
  {
    TrimEnd(TrimStart(s))
  }

  /** What `trim` removes is white space at both ends: `s` is the result
      with a white-space prefix of length `lead` and a white-space suffix. */
  lemma TrimFrame(s: string) returns (lead: nat)
    ensures lead + |Trim(s)| <= |s| && Trim(s) == s[lead..lead + |Trim(s)|]
    ensures AllSpace(s[..lead]) && AllSpace(s[lead + |Trim(s)|..])
  {
    var a := TrimStart(s);
    var t := TrimEnd(a);
    lead := |s| - |a|;
    assert s[lead + |t|..] == a[|t|..];
  }

  /** Trimming is idempotent. */
  lemma TrimIdempotent(s: string)
    ensures Trim(Trim(s)) == Trim(s)
  {
    var t := Trim(s);
    if t != [] {
      assert TrimStart(t) == t;
    }
  }

  /** Trailing white space does not survive a trim. */
  lemma {:induction false} TrimDropsTrailing(s: string, w: string)
    requires AllSpace(w)
    ensures Trim(s + w) == Trim(s)
    decreases |w|
  {
    if w != [] {
      assert s + w == (s + [w[0]]) + w[1..];
      TrimDropsTrailing(s + [w[0]], w[1..]);
      TrimEndAppend(s, w[0]);
      calc {
        Trim(s + w);
        Trim((s + [w[0]]) + w[1..]);
        Trim(s + [w[0]]);
        Trim(s);
      }
    } else {
      assert s + w == s;
    }
  }

  lemma TrimEndAppend(s: string, c: char)
    requires IsSpace(c)
    ensures Trim(s + [c]) == Trim(s)
  {
    assert (s + [c])[..|s + [c]| - 1] == s;
    assert TrimEnd(s + [c]) == TrimEnd(s);
    TrimStartThenEnd(s, c);
  }

  lemma TrimStartThenEnd(s: string, c: char)
    requires IsSpace(c)
    ensures TrimEnd(TrimStart(s + [c])) == TrimEnd(TrimStart(s))
  {
    TrimStartSnoc(s, c);
    if TrimStart(s) != [] {
      TrimEndSnoc(TrimStart(s), c);
    }
  }

  /** Trimming the start of a string that gained a trailing white-space
      character yields the old result plus that character, or nothing. */
  lemma {:induction false} TrimStartSnoc(s: string, c: char)
    requires IsSpace(c)
    ensures TrimStart(s) == [] ==> TrimStart(s + [c]) == []
    ensures TrimStart(s) != [] ==> TrimStart(s + [c]) == TrimStart(s) + [c]
    decreases |s|
  {
    if s == [] {
      assert [c][1..] == [];
    } else if IsSpace(s[0]) {
      assert (s + [c])[0] == s[0] && (s + [c])[1..] == s[1..] + [c];
      TrimStartSnoc(s[1..], c);
      assert TrimStart(s + [c]) == TrimStart(s[1..] + [c]);
    } else {
      assert (s + [c])[0] == s[0];
    }
  }

  /** A trailing white-space character does not survive `TrimEnd`. */
  lemma TrimEndSnoc(s: string, c: char)
    requires IsSpace(c)
    ensures TrimEnd(s + [c]) == TrimEnd(s)
  {
    assert (s + [c])[..|s + [c]| - 1] == s;
  }
}
