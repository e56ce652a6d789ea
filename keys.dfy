/**
 * Key extraction in the Gemini key validator: `re.findall` of
 * `AIza[0-9A-Za-z\-_]{35}` over the pasted text, then
 * `sorted(list(set(...)))`. The pattern has a fixed length, so a scan from
 * the left that jumps past each match finds exactly the non-overlapping
 * matches `findall` returns.
 */
module Keys {

  const KeyPrefix: string := "AIza"
  /** The number of characters after the prefix. */
  const KeyBodyLength: nat := 35
  const KeyLength: nat := 39

  /** A character of the class `[0-9A-Za-z\-_]`. */
  predicate IsKeyChar(c: char) {
    ('0' <= c <= '9') || ('A' <= c <= 'Z') || ('a' <= c <= 'z') || c == '-' || c == '_'
  }

  /** The pattern matches `s` at position `i`. */
  predicate KeyAt(s: string, i: int) {
    && 0 <= i && i + KeyLength <= |s|
    && s[i..i + |KeyPrefix|] == KeyPrefix
    && forall j :: i + |KeyPrefix| <= j < i + KeyLength ==> IsKeyChar(s[j])
  }

  /** A string the pattern matches in full. */
  predicate IsKey(k: string) {
    |k| == KeyLength && KeyAt(k, 0)
  }

  /** Positions strictly increase and each match ends before the next begins. */
  predicate Disjoint(ps: seq<nat>) {
    forall j :: 0 <= j < |ps| - 1 ==> ps[j] + KeyLength <= ps[j + 1]
  }

  /**
   * The start positions `findall` reports when it resumes its search at
   * `i`: where the pattern matches, record the position and skip the
   * match; elsewhere move on by one character.
   */
  function MatchesFrom(s: string, i: nat): seq<nat>
    requires i <= |s|
    decreases |s| - i
  {
    if i + KeyLength > |s| then []
    else if KeyAt(s, i) then [i] + MatchesFrom(s, i + KeyLength)
    else MatchesFrom(s, i + 1)
  }

  /** Every reported position is a match of the pattern at or after the start of the search. */
  lemma {:induction false} MatchesAreMatches(s: string, i: nat)
    requires i <= |s|
    ensures forall j :: 0 <= j < |MatchesFrom(s, i)| ==> i <= MatchesFrom(s, i)[j] && KeyAt(s, MatchesFrom(s, i)[j])
    decreases |s| - i
  {
    var ps := MatchesFrom(s, i);
    if i + KeyLength > |s| {
    } else if KeyAt(s, i) {
      var rest := MatchesFrom(s, i + KeyLength);
      MatchesAreMatches(s, i + KeyLength);
      assert ps == [i] + rest;
      forall j | 1 <= j < |ps| ensures i <= ps[j] && KeyAt(s, ps[j]) {
        assert ps[j] == rest[j - 1];
      }
    } else {
      MatchesAreMatches(s, i + 1);
    }
  }

  /** The reported matches do not overlap and come left to right. */
  lemma {:induction false} MatchesDisjoint(s: string, i: nat)
    requires i <= |s|
    ensures Disjoint(MatchesFrom(s, i))
    decreases |s| - i
  {
    if i + KeyLength > |s| {
    } else if KeyAt(s, i) {
      MatchesDisjoint(s, i + KeyLength);
      MatchesAreMatches(s, i + KeyLength);
      var rest := MatchesFrom(s, i + KeyLength);
      assert MatchesFrom(s, i) == [i] + rest;
    } else {
      MatchesDisjoint(s, i + 1);
    }
  }

  /** Every place the pattern matches at or after `i` lies inside a reported match. */
  lemma {:induction false} MatchesComplete(s: string, i: nat, p: int)
    requires i <= |s| && i <= p && KeyAt(s, p)
    ensures exists j :: 0 <= j < |MatchesFrom(s, i)| && MatchesFrom(s, i)[j] <= p < MatchesFrom(s, i)[j] + KeyLength
    decreases |s| - i
  {
    var ps := MatchesFrom(s, i);
    if i + KeyLength > |s| {
      assert false;
    } else if KeyAt(s, i) {
      var rest := MatchesFrom(s, i + KeyLength);
      assert ps == [i] + rest;
      if p >= i + KeyLength {
        MatchesComplete(s, i + KeyLength, p);
        var j :| 0 <= j < |rest| && rest[j] <= p < rest[j] + KeyLength;
        assert ps[j + 1] == rest[j];
      } else {
        assert ps[0] == i;
      }
    } else {
      assert ps == MatchesFrom(s, i + 1);
      MatchesComplete(s, i + 1, p);
    }
  }

  /** The text of a match is a key. */
  lemma MatchIsKey(s: string, p: int)
    requires KeyAt(s, p)
    ensures IsKey(s[p..p + KeyLength])
  {
    var k := s[p..p + KeyLength];
    assert k[..|KeyPrefix|] == s[p..p + |KeyPrefix|];
    forall j | |KeyPrefix| <= j < KeyLength ensures IsKeyChar(k[j]) {
      assert k[j] == s[p + j];
    }
  }

  /** The keys `findall` returns, left to right. */
  function FindKeys(s: string): (keys: seq<string>)
    ensures forall j :: 0 <= j < |keys| ==> IsKey(keys[j])
    ensures |keys| == |MatchesFrom(s, 0)|
  {
    var ps := MatchesFrom(s, 0);
    MatchesAreMatches(s, 0);
    forall j | 0 <= j < |ps| ensures IsKey(s[ps[j]..ps[j] + KeyLength]) {
      MatchIsKey(s, ps[j]);
    }
    seq(|ps|, j requires 0 <= j < |ps| => s[ps[j]..ps[j] + KeyLength])
  }

  /** Each key found is the text of the match at the same place in the list of matches. */
  lemma FindKeysText(s: string)
    ensures forall j :: 0 <= j < |FindKeys(s)| ==>
              && KeyAt(s, MatchesFrom(s, 0)[j])
              && FindKeys(s)[j] == s[MatchesFrom(s, 0)[j]..MatchesFrom(s, 0)[j] + KeyLength]
  {
    MatchesAreMatches(s, 0);
  }

  /** Every match of the pattern overlaps a reported one, so `findall` finds nothing only in text without a key. */
  lemma NoKeysIffNoMatch(s: string)
    ensures FindKeys(s) == [] <==> forall i :: !KeyAt(s, i)
  {
    if i :| KeyAt(s, i) {
      MatchesComplete(s, 0, i);
    }
    if FindKeys(s) != [] {
      MatchesAreMatches(s, 0);
      assert KeyAt(s, MatchesFrom(s, 0)[0]);
    }
  }

  /** Python's `<` on strings: code-point lexicographic order. */
  predicate Less(a: string, b: string) {
    if a == [] then b != []
    else if b == [] then false
    else if a[0] != b[0] then a[0] < b[0]
    else Less(a[1..], b[1..])
  }

  lemma {:induction false} LessIrreflexive(a: string)
    ensures !Less(a, a)
  {
    if a != [] {
      LessIrreflexive(a[1..]);
    }
  }

  lemma {:induction false} LessTransitive(a: string, b: string, c: string)
    requires Less(a, b) && Less(b, c)
    ensures Less(a, c)
  {
    if a != [] && b != [] && c != [] && a[0] == b[0] && b[0] == c[0] {
      LessTransitive(a[1..], b[1..], c[1..]);
    }
  }

  lemma {:induction false} LessTotal(a: string, b: string)
    requires a != b
    ensures Less(a, b) || Less(b, a)
  {
    if a != [] && b != [] && a[0] == b[0] {
      assert a == [a[0]] + a[1..] && b == [b[0]] + b[1..];
      LessTotal(a[1..], b[1..]);
    }
  }

  lemma LessAsymmetric(a: string, b: string)
    requires Less(a, b)
    ensures !Less(b, a)
  {
    if Less(b, a) {
      LessTransitive(a, b, a);
      LessIrreflexive(a);
    }
  }

  /** The strings a list holds. */
  function Elements(r: seq<string>): (e: set<string>)
    ensures forall y :: y in e <==> y in r
  {
    set y | y in r
  }

  /** Strictly ascending in Python's order; in particular free of duplicates. */
  predicate Ascending(r: seq<string>) {
    forall i, j :: 0 <= i < j < |r| ==> Less(r[i], r[j])
  }

  lemma AscendingPrefix(r: seq<string>, n: nat)
    requires Ascending(r) && n <= |r|
    ensures Ascending(r[..n])
  {
    forall i, j | 0 <= i < j < n ensures Less(r[..n][i], r[..n][j]) {
      assert r[..n][i] == r[i] && r[..n][j] == r[j];
    }
  }

  /** A key below every key of an ascending sequence can be put in front of it. */
  lemma AscendingCons(x: string, r: seq<string>)
    requires Ascending(r)
    requires forall y :: y in r ==> Less(x, y)
    ensures Ascending([x] + r)
  {
    var t := [x] + r;
    forall i, j | 0 <= i < j < |t| ensures Less(t[i], t[j]) {
      assert t[j] == r[j - 1];
      if i > 0 {
        assert t[i] == r[i - 1];
      }
    }
  }

  lemma AscendingSuffix(r: seq<string>)
    requires Ascending(r) && r != []
    ensures Ascending(r[1..])
  {
    forall i, j | 0 <= i < j < |r| - 1 ensures Less(r[1..][i], r[1..][j]) {
      assert r[1..][i] == r[i + 1] && r[1..][j] == r[j + 1];
    }
  }

  /** A key above every key of an ascending sequence can be appended to it. */
  lemma AscendingSnoc(r: seq<string>, x: string)
    requires Ascending(r)
    requires forall y :: y in r ==> Less(y, x)
    ensures Ascending(r + [x])
  {
    var t := r + [x];
    forall i, j | 0 <= i < j < |t| ensures Less(t[i], t[j]) {
      if j == |r| {
        assert t[i] in r;
      }
    }
  }

  lemma AscendingHasNoDuplicates(r: seq<string>)
    requires Ascending(r)
    ensures forall i, j :: 0 <= i < j < |r| ==> r[i] != r[j]
  {
    forall i, j | 0 <= i < j < |r| ensures r[i] != r[j] {
      if r[i] == r[j] {
        LessIrreflexive(r[i]);
      }
    }
  }

  /** `x` added to an ascending list at its place, unless it is already there. */
  function Insert(x: string, r: seq<string>): (t: seq<string>)
    requires Ascending(r)
    ensures Ascending(t)
    ensures Elements(t) == Elements(r) + {x}
  {
    if r == [] then [x]
    else if x == r[0] then r
    else if Less(x, r[0]) then
      assert forall j :: 0 <= j < |r| ==> Less(x, r[j]) by {
        forall j | 0 <= j < |r| ensures Less(x, r[j]) {
          if j > 0 {
            LessTransitive(x, r[0], r[j]);
          }
        }
      }
      AscendingCons(x, r);
      [x] + r
    else
      AscendingSuffix(r);
      var rest := Insert(x, r[1..]);
      LessTotal(x, r[0]);
      assert forall y :: y in rest ==> Less(r[0], y) by {
        forall y | y in rest ensures Less(r[0], y) {
          if y != x {
            assert y in Elements(r[1..]);
            var j :| 0 <= j < |r[1..]| && r[1..][j] == y;
            assert r[j + 1] == y;
          }
        }
      }
      assert r == [r[0]] + r[1..];
      AscendingCons(r[0], rest);
      [r[0]] + rest
  }

  /** `sorted(set(keys))`, built by inserting the keys one by one. */
  function SortedUnique(keys: seq<string>): (r: seq<string>)
    ensures Ascending(r)
    ensures Elements(r) == Elements(keys)
  {
    if keys == [] then []
    else
      var r := Insert(keys[|keys| - 1], SortedUnique(keys[..|keys| - 1]));
      assert keys == keys[..|keys| - 1] + [keys[|keys| - 1]];
      r
  }

  /**
   * An ascending list is determined by its elements: whatever algorithm
   * sorts the set, the result is `SortedUnique`'s.
   */
  lemma {:induction false} AscendingUnique(a: seq<string>, b: seq<string>)
    requires Ascending(a) && Ascending(b)
    requires Elements(a) == Elements(b)
    ensures a == b
  {
    assert a != [] <==> b != [] by {
      if a != [] {
        assert a[0] in Elements(b);
      }
      if b != [] {
        assert b[0] in Elements(a);
      }
    }
    if a != [] && b != [] {
      assert a[0] in b;
      assert b[0] in a;
      if a[0] != b[0] {
        var i :| 0 <= i < |b| && b[i] == a[0];
        var j :| 0 <= j < |a| && a[j] == b[0];
        assert Less(b[0], a[0]);
        assert Less(a[0], b[0]);
        LessAsymmetric(a[0], b[0]);
      }
      AscendingHasNoDuplicates(a);
      AscendingHasNoDuplicates(b);
      assert Elements(a[1..]) == Elements(a) - {a[0]} by {
        assert a == [a[0]] + a[1..];
        forall y | y in a[1..] ensures y != a[0] {
          var k :| 0 <= k < |a[1..]| && a[1..][k] == y;
          assert a[k + 1] == y;
        }
      }
      assert Elements(b[1..]) == Elements(b) - {b[0]} by {
        assert b == [b[0]] + b[1..];
        forall y | y in b[1..] ensures y != b[0] {
          var k :| 0 <= k < |b[1..]| && b[1..][k] == y;
          assert b[k + 1] == y;
        }
      }
      AscendingUnique(a[1..], b[1..]);
      assert a == [a[0]] + a[1..] && b == [b[0]] + b[1..];
      assert a == b;
    }
  }

  /** `unique_keys`: the keys in the pasted text, deduplicated and sorted. */
  function UniqueKeys(text: string): (keys: seq<string>)
    ensures Ascending(keys)
    ensures forall k :: k in keys <==> k in FindKeys(text)
    ensures forall k :: k in keys ==> IsKey(k)
    ensures keys == [] <==> forall i :: !KeyAt(text, i)
  {
    var keys := SortedUnique(FindKeys(text));
    NoKeysIffNoMatch(text);
    assert forall k :: k in keys <==> k in FindKeys(text) by {
      forall k ensures k in keys <==> k in FindKeys(text) {
        assert k in keys <==> k in Elements(keys);
        assert k in FindKeys(text) <==> k in Elements(FindKeys(text));
      }
    }
    keys
  }
}
