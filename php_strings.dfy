/** The few PHP string primitives the plugin's core depends on, with PHP's own
    edge cases: truthiness of strings, trim(), substr($s, 0, $n) and a
    substring search as stripos() performs it for a needle without letters. */
module PhpStrings {

  datatype Option<T> = None | Some(value: T)

  /** PHP's truthiness of a string: exactly "" and "0" are false. */
  predicate Truthy(s: string) {
    s != "" && s != "0"
  }

  /** The characters PHP's trim() strips when no character list is given:
      space, tab, line feed, carriage return, NUL and vertical tab. */
  predicate IsPhpSpace(c: char) {
    c == ' ' || c == '\t' || c == '\n' || c == '\r' || c == '\0' || c == '\U{B}'
  }

  /** Drops the leading characters that satisfy `isSpace`. */
  function TrimStart(s: string, isSpace: char -> bool): (r: string)
    ensures |r| <= |s| && r == s[|s| - |r|..]
    ensures r == [] || !isSpace(r[0])
  {
    if s != [] && isSpace(s[0]) then TrimStart(s[1..], isSpace) else s
  }

  /** Drops the trailing characters that satisfy `isSpace`. */
  function TrimEnd(s: string, isSpace: char -> bool): (r: string)
    ensures |r| <= |s| && r == s[..|r|]
    ensures r == [] || !isSpace(r[|r| - 1])
  {
    if s != [] && isSpace(s[|s| - 1]) then TrimEnd(s[..|s| - 1], isSpace) else s
  }

  /** Trimming on both ends; the result neither starts nor ends with a space
      character. */
  function TrimBy(s: string, isSpace: char -> bool): (r: string)
    ensures |r| <= |s|
    ensures r == [] || (!isSpace(r[0]) && !isSpace(r[|r| - 1]))
  {
    TrimEnd(TrimStart(s, isSpace), isSpace)
  }

  /** PHP's trim($s). */
  function PhpTrim(s: string): string {
    TrimBy(s, IsPhpSpace)
  }

  /** Everything TrimStart removes is a space character. */
  lemma {:induction false} TrimStartDropsSpaces(s: string, isSpace: char -> bool)
    ensures forall k :: 0 <= k < |s| - |TrimStart(s, isSpace)| ==> isSpace(s[k])
  {
    if s != [] && isSpace(s[0]) {
      TrimStartDropsSpaces(s[1..], isSpace);
      forall k | 0 < k < |s| - |TrimStart(s, isSpace)|
        ensures isSpace(s[k])
      {
        assert s[k] == s[1..][k - 1];
      }
    }
  }

  /** Everything TrimEnd removes is a space character. */
  lemma {:induction false} TrimEndDropsSpaces(s: string, isSpace: char -> bool)
    ensures forall k :: |TrimEnd(s, isSpace)| <= k < |s| ==> isSpace(s[k])
  {
    if s != [] && isSpace(s[|s| - 1]) {
      TrimEndDropsSpaces(s[..|s| - 1], isSpace);
    }
  }

  /** The trimmed string is the piece of `s` between a run of leading and a
      run of trailing space characters. */
  lemma TrimByShape(s: string, isSpace: char -> bool)
    ensures var r := TrimBy(s, isSpace);
            exists i :: 0 <= i <= |s| - |r| && r <= s[i..]
                        && (forall k :: 0 <= k < i ==> isSpace(s[k]))
                        && (forall k :: i + |r| <= k < |s| ==> isSpace(s[k]))
  {
    var t := TrimStart(s, isSpace);
    var i := |s| - |t|;
    TrimStartDropsSpaces(s, isSpace);
    TrimEndDropsSpacesAfter(s, i, isSpace);
    assert t == s[i..];
  }

  /** TrimEnd applied to the suffix s[i..] removes space characters of `s`
      only. */
  lemma TrimEndDropsSpacesAfter(s: string, i: nat, isSpace: char -> bool)
    requires i <= |s|
    ensures forall k :: i + |TrimEnd(s[i..], isSpace)| <= k < |s| ==> isSpace(s[k])
  {
    var t := s[i..];
    TrimEndDropsSpaces(t, isSpace);
    forall k | i + |TrimEnd(t, isSpace)| <= k < |s|
      ensures isSpace(s[k])
    {
      assert s[k] == t[k - i];
    }
  }

  /** A one-character string trims to nothing exactly when that character
      is a space character. */
  lemma TrimSingle(c: char, isSpace: char -> bool)
    ensures TrimBy([c], isSpace) == if isSpace(c) then [] else [c]
  {
    if isSpace(c) {
      assert [c][1..] == [];
      assert TrimStart([c], isSpace) == [];
    } else {
      assert TrimStart([c], isSpace) == [c];
      assert TrimEnd([c], isSpace) == [c];
    }
  }

  /** Trimming twice removes nothing more than trimming once. */
  lemma TrimIdempotent(s: string, isSpace: char -> bool)
    ensures TrimBy(TrimBy(s, isSpace), isSpace) == TrimBy(s, isSpace)
  {
    var r := TrimBy(s, isSpace);
    assert TrimStart(r, isSpace) == r;
    assert TrimEnd(r, isSpace) == r;
  }

  /** substr($s, 0, $n) for a non-negative $n: the first $n characters, or
      the whole string when it is shorter. */
  function Prefix(s: string, n: nat): (r: string)
    ensures r <= s
    ensures |r| == if |s| < n then |s| else n
  {
    if |s| <= n then s else s[..n]
  }

  /** stripos($s, $needle) !== false, for a needle that holds no letters
      (so that case folding does not matter): some position of `s` starts a
      copy of `needle`. Scans from the left as stripos does. */
  predicate Contains(s: string, needle: string)
    decreases |s|
  {
    needle <= s || (s != [] && Contains(s[1..], needle))
  }

  /** The scan agrees with the plain definition of a substring occurrence. */
  lemma {:induction false} ContainsIff(s: string, needle: string)
    ensures Contains(s, needle) <==> exists i :: 0 <= i <= |s| && needle <= s[i..]
  {
    if needle <= s {
      assert s[0..] == s;
    } else if s == [] {
    } else {
      ContainsIff(s[1..], needle);
      if Contains(s, needle) {
        var i :| 0 <= i <= |s| - 1 && needle <= s[1..][i..];
        assert s[1..][i..] == s[i + 1..];
      }
      if exists i :: 0 <= i <= |s| && needle <= s[i..] {
        var i :| 0 <= i <= |s| && needle <= s[i..];
        assert s[0..] == s;
        assert s[1..][i - 1..] == s[i..];
      }
    }
  }

  /** A concrete occurrence makes Contains true. */
  lemma ContainsAt(s: string, needle: string, i: nat)
    requires i <= |s| && needle <= s[i..]
    ensures Contains(s, needle)
  {
    ContainsIff(s, needle);
  }
}
