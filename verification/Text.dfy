/** Substring search, as std::string does it. */
module Text {

  datatype Option<+T> = None | Some(value: T)

  /** `p` occurs in `s` at position `i`. */
  predicate At(s: string, p: string, i: int) {
    0 <= i && i + |p| <= |s| && s[i..i + |p|] == p
  }

  /** `find`: the first position not before `from`, or npos. */
  function Find(s: string, p: string, from: nat): (r: Option<nat>)
    ensures r.Some? ==> from <= r.value && At(s, p, r.value) && forall j :: from <= j < r.value ==> !At(s, p, j)
    ensures r.None? ==> forall j :: from <= j ==> !At(s, p, j)
    decreases |s| - from
  {
    if from + |p| > |s| then None
    else if s[from..from + |p|] == p then Some(from)
    else Find(s, p, from + 1)
  }

  /** `substr`, for a position in range. */
  function Substr(s: string, i: nat, n: nat): string
    requires i <= |s|
  {
    if i + n <= |s| then s[i..i + n] else s[i..]
  }

  lemma FindIs(s: string, p: string, from: nat, k: nat)
    requires from <= k && At(s, p, k)
    requires forall j :: from <= j < k ==> !At(s, p, j)
    ensures Find(s, p, from) == Some(k)
  {
  }

  /** An occurrence, character by character. */
  lemma AtChars(s: string, p: string, i: int)
    ensures At(s, p, i) <==> 0 <= i && i + |p| <= |s| && forall k :: 0 <= k < |p| ==> s[i + k] == p[k]
  {
    if 0 <= i && i + |p| <= |s| && forall k :: 0 <= k < |p| ==> s[i + k] == p[k] {
      assert s[i..i + |p|] == p;
    }
    if At(s, p, i) {
      forall k | 0 <= k < |p| ensures s[i + k] == p[k] {
        assert s[i..i + |p|][k] == s[i + k];
      }
    }
  }

  /** Occurrences inside a stretch of `s` are occurrences in `s`. */
  lemma AtShift(s: string, start: nat, part: string, p: string, j: nat)
    requires At(s, part, start) && j + |p| <= |part|
    ensures At(part, p, j) <==> At(s, p, start + j)
  {
    AtChars(s, part, start);
    AtChars(part, p, j);
    AtChars(s, p, start + j);
    if At(part, p, j) {
      forall k | 0 <= k < |p| ensures s[start + j + k] == p[k] {
        assert s[start + (j + k)] == part[j + k];
      }
    }
    if At(s, p, start + j) {
      forall k | 0 <= k < |p| ensures part[j + k] == p[k] {
        assert s[start + (j + k)] == part[j + k];
      }
    }
  }

  /** One character out of place. */
  lemma NotAt(s: string, p: string, i: nat, k: nat)
    requires k < |p| && (i + k < |s| ==> s[i + k] != p[k])
    ensures !At(s, p, i)
  {
    AtChars(s, p, i);
  }
}
