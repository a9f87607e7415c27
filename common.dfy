/** JavaScript value helpers shared by the backend and the frontend model:
    optional values, truthiness of `||` chains, and the string operations the
    pages use (`trim`, `toLowerCase`, `includes`). */
module Common {

  datatype Option<+T> = None | Some(value: T) {
    function GetOr(default: T): T {
      match this
      case Some(v) => v
      case None => default
    }
  }

  /** A string-valued JS expression is truthy when it is present and non-empty. */
  predicate TruthyStr(s: Option<string>) {
    s.Some? && s.value != ""
  }

  /** A numeric identifier is truthy when it is present and not 0. */
  predicate TruthyId(n: Option<nat>) {
    n.Some? && n.value != 0
  }

  /** A number is truthy when it is present and not 0. */
  predicate TruthyNumber(n: Option<int>) {
    n.Some? && n.value != 0
  }

  /** `a || b || ... || fallback` over optional strings: the first truthy candidate,
      else the fallback. */
  function FirstText(cands: seq<Option<string>>, fallback: string): (r: string)
    ensures (exists i :: 0 <= i < |cands| && TruthyStr(cands[i])) ==>
      exists i :: 0 <= i < |cands| && TruthyStr(cands[i]) && r == cands[i].value &&
        forall j :: 0 <= j < i ==> !TruthyStr(cands[j])
    ensures (forall i :: 0 <= i < |cands| ==> !TruthyStr(cands[i])) ==> r == fallback
    ensures fallback != "" ==> r != ""
  {
    if cands == [] then fallback
    else if TruthyStr(cands[0]) then cands[0].value
    else
      var r := FirstText(cands[1..], fallback);
      assert forall i :: 1 <= i < |cands| ==> cands[i] == cands[1..][i - 1];
      r
  }

  /** `a || b || ...` over optional identifiers: the first truthy one, if any. */
  function FirstId(cands: seq<Option<nat>>): (r: Option<nat>)
    ensures r.Some? <==> exists i :: 0 <= i < |cands| && TruthyId(cands[i])
    ensures r.Some? ==>
      exists i :: 0 <= i < |cands| && TruthyId(cands[i]) && r == cands[i] &&
        forall j :: 0 <= j < i ==> !TruthyId(cands[j])
  {
    if cands == [] then None
    else if TruthyId(cands[0]) then cands[0]
    else
      var r := FirstId(cands[1..]);
      assert forall i :: 1 <= i < |cands| ==> cands[i] == cands[1..][i - 1];
      r
  }

  /** The first truthy candidate is the one chosen. */
  lemma FirstIdAt(cands: seq<Option<nat>>, i: nat)
    requires i < |cands| && TruthyId(cands[i])
    requires forall j :: 0 <= j < i ==> !TruthyId(cands[j])
    ensures FirstId(cands) == cands[i]
  {
  }

  /** The characters `String.prototype.trim` removes: ECMAScript WhiteSpace
      (TAB, VT, FF, SP, NBSP, ZWNBSP and the Zs category) and LineTerminator. */
  predicate IsWhitespace(c: char) {
    c == '\t' || c == '\n' || c == '\U{000B}' || c == '\U{000C}' || c == '\r' ||
    c == ' ' || c == '\U{00A0}' || c == '\U{1680}' || ('\U{2000}' <= c <= '\U{200A}') ||
    c == '\U{2028}' || c == '\U{2029}' || c == '\U{202F}' || c == '\U{205F}' ||
    c == '\U{3000}' || c == '\U{FEFF}'
  }

  /** Drops leading whitespace: the result is a suffix of s that does not start
      with whitespace, and everything dropped was whitespace. */
  function TrimStart(s: string): (r: string)
    ensures |r| <= |s| && r == s[|s| - |r|..]
    ensures r == [] || !IsWhitespace(r[0])
    ensures forall i :: 0 <= i < |s| - |r| ==> IsWhitespace(s[i])
  {
    if s != [] && IsWhitespace(s[0]) then TrimStart(s[1..]) else s
  }

  /** Drops trailing whitespace: the result is a prefix of s that does not end
      with whitespace, and everything dropped was whitespace. */
  function TrimEnd(s: string): (r: string)
    ensures |r| <= |s| && r == s[..|r|]
    ensures r == [] || !IsWhitespace(r[|r| - 1])
    ensures forall i :: |r| <= i < |s| ==> IsWhitespace(s[i])
  {
    if s != [] && IsWhitespace(s[|s| - 1]) then TrimEnd(s[..|s| - 1]) else s
  }

  /** `s.trim()`: a contiguous piece of s, with only whitespace cut from either
      side. */
  function Trim(s: string): (r: string)
    ensures exists i, j ::
      && 0 <= i <= j <= |s| && r == s[i..j]
      && (forall k :: 0 <= k < i ==> IsWhitespace(s[k]))
      && (forall k :: j <= k < |s| ==> IsWhitespace(s[k]))
  {
    var t := TrimStart(s);
    var r := TrimEnd(t);
    var i := |s| - |t|;
    assert r == s[i..i + |r|];
    assert forall k :: i + |r| <= k < |s| ==> s[k] == t[k - i];
    r
  }

  /** A trimmed string neither starts nor ends with whitespace. */
  lemma TrimEnds(s: string)
    ensures var r := Trim(s); r == [] || (!IsWhitespace(r[0]) && !IsWhitespace(r[|r| - 1]))
  {
    var t := TrimStart(s);
    var r := TrimEnd(t);
    if r != [] {
      assert r[0] == t[0];
    }
  }

  /** A string with no whitespace at either end is its own trim. */
  lemma {:induction false} TrimFixed(s: string)
    requires s == [] || (!IsWhitespace(s[0]) && !IsWhitespace(s[|s| - 1]))
    ensures Trim(s) == s
  {
  }

  lemma TrimIdempotent(s: string)
    ensures Trim(Trim(s)) == Trim(s)
  {
    TrimEnds(s);
    TrimFixed(Trim(s));
  }

  /** Only whitespace, so `!s.trim()` holds. */
  predicate IsBlank(s: string) {
    forall i :: 0 <= i < |s| ==> IsWhitespace(s[i])
  }

  lemma BlankTrim(s: string)
    ensures Trim(s) == "" <==> IsBlank(s)
  {
    var t := TrimStart(s);
    if Trim(s) == "" {
      // Every character of t is trailing whitespace, yet t does not start
      // with whitespace: t is empty, so all of s was leading whitespace.
      assert |t| == 0;
    }
  }

  /** ASCII case mapping, as `toLowerCase` does on the ASCII letters. */
  function LowerChar(c: char): char {
    if 'A' <= c <= 'Z' then (c as int + 32) as char else c
  }

  /** `s.toLowerCase()` on ASCII: no capital is left, every other character is
      kept, and each capital becomes the letter 32 code points above it. */
  function Lower(s: string): (r: string)
    ensures |r| == |s|
    ensures forall i :: 0 <= i < |r| ==> !('A' <= r[i] <= 'Z')
    ensures forall i :: 0 <= i < |s| && !('A' <= s[i] <= 'Z') ==> r[i] == s[i]
    ensures forall i :: 0 <= i < |s| && 'A' <= s[i] <= 'Z' ==> r[i] as int == s[i] as int + 32
  {
    seq(|s|, i requires 0 <= i < |s| => LowerChar(s[i]))
  }

  lemma LowerIdempotent(s: string)
    ensures Lower(Lower(s)) == Lower(s)
  {
  }

  /** Lower-casing never turns a character into whitespace or back, so a trimmed
      string stays trimmed. */
  lemma LowerKeepsTrim(s: string)
    ensures Trim(Lower(Trim(s))) == Lower(Trim(s))
  {
    TrimEnds(s);
    var r := Lower(Trim(s));
    assert r == [] || (!IsWhitespace(r[0]) && !IsWhitespace(r[|r| - 1]));
    TrimFixed(r);
  }

  /** Trimming and lower-casing a second time changes nothing. */
  lemma NormalText(s: string)
    ensures Lower(Trim(Lower(Trim(s)))) == Lower(Trim(s))
  {
    LowerKeepsTrim(s);
    LowerIdempotent(Trim(s));
  }

  /** Lower-case ASCII letters and `_`, the characters of the stored status values. */
  predicate IsWordChar(c: char) {
    'a' <= c <= 'z' || c == '_'
  }

  /** A non-empty word of such characters is left alone by trim-then-lower-case. */
  lemma WordText(s: string)
    requires s != []
    requires forall i :: 0 <= i < |s| ==> IsWordChar(s[i])
    ensures Lower(Trim(s)) == s
  {
    TrimFixed(s);
    assert Lower(s) == s;
  }

  /** Whether t occurs in s as a contiguous block (`s.includes(t)`). */
  predicate Contains(s: string, t: string)
    decreases |s|
  {
    |t| <= |s| && (s[..|t|] == t || Contains(s[1..], t))
  }

  /** A string lacking some character of t does not contain t. */
  lemma {:induction false} AbsentChar(s: string, t: string, c: char)
    requires c in t && c !in s
    ensures !Contains(s, t)
    decreases |s|
  {
    if |t| <= |s| {
      assert s[..|t|] != t by {
        var k :| 0 <= k < |t| && t[k] == c;
        assert s[..|t|][k] == s[k];
      }
      AbsentChar(s[1..], t, c);
    }
  }

  /** t occurs in s when it matches s character by character from index i. */
  lemma {:induction false} ContainsAt(s: string, t: string, i: nat)
    requires i + |t| <= |s|
    requires forall k :: 0 <= k < |t| ==> s[i + k] == t[k]
    ensures Contains(s, t)
    decreases i
  {
    if i > 0 {
      forall k | 0 <= k < |t| ensures s[1..][i - 1 + k] == t[k] {
        assert s[1..][i - 1 + k] == s[i + k];
      }
      ContainsAt(s[1..], t, i - 1);
    } else {
      assert s[..|t|] == t;
    }
  }

  /** A string lacking some pair of adjacent characters of t does not contain t. */
  lemma {:induction false} AbsentPair(s: string, t: string, k: nat)
    requires k + 1 < |t|
    requires forall i :: 0 <= i < |s| - 1 ==> !(s[i] == t[k] && s[i + 1] == t[k + 1])
    ensures !Contains(s, t)
    decreases |s|
  {
    if |t| <= |s| {
      assert s[..|t|] != t by {
        assert s[..|t|][k] == s[k] && s[..|t|][k + 1] == s[k + 1];
      }
      forall i | 0 <= i < |s[1..]| - 1 ensures !(s[1..][i] == t[k] && s[1..][i + 1] == t[k + 1]) {
        assert s[1..][i] == s[i + 1] && s[1..][i + 1] == s[i + 2];
      }
      AbsentPair(s[1..], t, k);
    }
  }

  /** A lower-case letter that occurs in s in neither case is absent from Lower(s). */
  lemma LowerMissing(s: string, c: char)
    requires 'a' <= c <= 'z'
    requires c !in s && (c as int - 32) as char !in s
    ensures c !in Lower(s)
  {
  }

  /** The positions of s whose element passes p. */
  ghost function Passing<T>(s: seq<T>, p: T -> bool): set<nat> {
    set i: nat | i < |s| && p(s[i])
  }

  /** `s.filter(p).length`: the number of positions whose element passes p. */
  function Count<T>(s: seq<T>, p: T -> bool): (n: nat)
    ensures n <= |s|
    ensures n == |Passing(s, p)|
  {
    if s == [] then
      assert Passing(s, p) == {};
      0
    else
      var k := |s| - 1;
      var n := Count(s[..k], p);
      assert Passing(s, p) == Passing(s[..k], p) + (if p(s[k]) then {k} else {}) by {
        assert forall i :: 0 <= i < k ==> s[..k][i] == s[i];
      }
      n + (if p(s[k]) then 1 else 0)
  }

  /** Appending an element adds one to the count exactly when it passes. */
  lemma CountAppend<T>(s: seq<T>, x: T, p: T -> bool)
    ensures Count(s + [x], p) == Count(s, p) + (if p(x) then 1 else 0)
  {
    assert (s + [x])[..|s|] == s;
  }

  /** An element either passes a filter or its negation, never both. */
  lemma {:induction false} CountComplement<T>(s: seq<T>, p: T -> bool, q: T -> bool)
    requires forall x :: q(x) == !p(x)
    ensures Count(s, p) + Count(s, q) == |s|
  {
    if s != [] {
      CountComplement(s[..|s| - 1], p, q);
    }
  }

  /** Three pairwise disjoint filters together keep at most every element once. */
  lemma {:induction false} CountDisjoint<T>(s: seq<T>, p: T -> bool, q: T -> bool, r: T -> bool)
    requires forall x :: !(p(x) && q(x)) && !(p(x) && r(x)) && !(q(x) && r(x))
    ensures Count(s, p) + Count(s, q) + Count(s, r) <= |s|
  {
    if s != [] {
      CountDisjoint(s[..|s| - 1], p, q, r);
    }
  }
}
