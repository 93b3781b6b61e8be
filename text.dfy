/** The three JavaScript string operations the widget relies on:
    `toLowerCase`, `includes` and `replace(' ', '')`. */
module Text {

  /** `toLowerCase` on one character, for the ASCII letters. */
  function LowerChar(c: char): (r: char)
    ensures !('A' <= r <= 'Z')
    ensures 'A' <= c <= 'Z' ==> r as int == c as int + 32
    ensures !('A' <= c <= 'Z') ==> r == c
  {
    if 'A' <= c <= 'Z' then (c as int + 32) as char else c
  }

  /** `s.toLowerCase()`: every character lower-cased in place. */
  function ToLower(s: string): (r: string)
    ensures |r| == |s|
    ensures forall i :: 0 <= i < |s| ==> r[i] == LowerChar(s[i])
  {
    if s == [] then [] else [LowerChar(s[0])] + ToLower(s[1..])
  }

  /** `sub` occurs in `s` starting at index `i`. */
  predicate OccursAt(s: string, sub: string, i: int) {
    0 <= i <= |s| - |sub| && s[i..i + |sub|] == sub
  }

  /** `sub` occurs in `s` at index `k` or later. */
  predicate IncludesFrom(s: string, sub: string, k: nat)
    requires k <= |s|
    decreases |s| - k
  {
    OccursAt(s, sub, k) || (k < |s| && IncludesFrom(s, sub, k + 1))
  }

  /** `s.includes(sub)`; the empty string occurs in every string. */
  predicate Includes(s: string, sub: string) {
    IncludesFrom(s, sub, 0)
  }

  lemma {:induction false} IncludesFromAt(s: string, sub: string, k: nat, i: int)
    requires k <= i && OccursAt(s, sub, i)
    ensures IncludesFrom(s, sub, k)
    decreases i - k
  {
    if k < i {
      IncludesFromAt(s, sub, k + 1, i);
    }
  }

  lemma {:induction false} IncludesFromWitness(s: string, sub: string, k: nat) returns (i: int)
    requires k <= |s| && IncludesFrom(s, sub, k)
    ensures k <= i && OccursAt(s, sub, i)
    decreases |s| - k
  {
    if OccursAt(s, sub, k) {
      i := k;
    } else {
      i := IncludesFromWitness(s, sub, k + 1);
    }
  }

  /** `s.includes(sub)` holds exactly when `sub` occurs in `s` at some index. */
  lemma IncludesIff(s: string, sub: string)
    ensures Includes(s, sub) <==> exists i :: OccursAt(s, sub, i)
  {
    if Includes(s, sub) {
      var i := IncludesFromWitness(s, sub, 0);
    }
    if i :| OccursAt(s, sub, i) {
      IncludesFromAt(s, sub, 0, i);
    }
  }

  lemma IncludesAt(s: string, sub: string, i: int)
    requires OccursAt(s, sub, i)
    ensures Includes(s, sub)
  {
    IncludesFromAt(s, sub, 0, i);
  }

  /** A string cannot include a pattern one of whose characters it lacks. */
  lemma NotIncludesMissingChar(s: string, sub: string, k: int)
    requires 0 <= k < |sub| && sub[k] !in s
    ensures !Includes(s, sub)
  {
    if Includes(s, sub) {
      var i := IncludesFromWitness(s, sub, 0);
    }
  }

  /** Inclusion is transitive: if `mid` occurs in `s` and `sub` occurs in `mid`,
      then `sub` occurs in `s`. */
  lemma IncludesTransitive(s: string, mid: string, sub: string)
    requires Includes(s, mid) && Includes(mid, sub)
    ensures Includes(s, sub)
  {
    var i := IncludesFromWitness(s, mid, 0);
    var j := IncludesFromWitness(mid, sub, 0);
    forall t | 0 <= t < |sub|
      ensures s[i + j + t] == sub[t]
    {
      assert s[i..i + |mid|][j + t] == s[i + j + t];
      assert mid[j..j + |sub|][t] == mid[j + t];
    }
    assert s[i + j..i + j + |sub|] == sub;
    IncludesAt(s, sub, i + j);
  }

  /** `s` with its first space at or after index `k` removed; `s` itself
      when there is none. */
  function RemoveSpaceFrom(s: string, k: nat): (r: string)
    requires k <= |s|
    ensures ' ' !in s[k..] ==> r == s
    decreases |s| - k
  {
    if k == |s| then s
    else if s[k] == ' ' then s[..k] + s[k + 1..]
    else
      assert s[k..] == [s[k]] + s[k + 1..];
      RemoveSpaceFrom(s, k + 1)
  }

  /** `s.replace(' ', '')`: a string pattern replaces only its first
      occurrence. */
  function RemoveFirstSpace(s: string): (r: string)
    ensures ' ' !in s ==> r == s
  {
    RemoveSpaceFrom(s, 0)
  }

  lemma {:induction false} RemoveSpaceFromAt(s: string, k: nat, i: int)
    requires k <= i < |s| && s[i] == ' ' && ' ' !in s[k..i]
    ensures RemoveSpaceFrom(s, k) == s[..i] + s[i + 1..]
    decreases i - k
  {
    if k < i {
      assert s[k] in s[k..i];
      assert s[k + 1..i] == s[k..i][1..];
      RemoveSpaceFromAt(s, k + 1, i);
    }
  }

  /** Exactly the first space is removed: everything before it and everything
      after it is kept, in order. */
  lemma RemoveFirstSpaceAt(s: string, i: int)
    requires 0 <= i < |s| && s[i] == ' ' && ' ' !in s[..i]
    ensures RemoveFirstSpace(s) == s[..i] + s[i + 1..]
  {
    assert s[0..i] == s[..i];
    RemoveSpaceFromAt(s, 0, i);
  }
}
