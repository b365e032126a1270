/**
 * The string operations of Go's `strings` package that the log classifier
 * relies on: `Contains`, `ToLower` (ASCII letters only), `Split` on a single
 * separator character and its inverse `Join`.
 */
module Text {

  /** `sub` occurs in `s` starting at index `i`. */
  ghost predicate OccursAt(s: string, sub: string, i: nat)
  {
    i + |sub| <= |s| && s[i..i + |sub|] == sub
  }

  predicate IsPrefix(p: string, s: string)
  {
    |p| <= |s| && s[..|p|] == p
  }

  /** strings.Contains: some occurrence of `sub` starts somewhere in `s`. */
  function Contains(s: string, sub: string): (r: bool)
    ensures r <==> exists i: nat :: OccursAt(s, sub, i)
    decreases |s|
  {
    if IsPrefix(sub, s) then
      assert OccursAt(s, sub, 0);
      true
    else if s == [] then
      assert forall i: nat :: !OccursAt(s, sub, i);
      false
    else
      var r := Contains(s[1..], sub);
      if r then
        assert exists i: nat :: OccursAt(s, sub, i) by {
          var i: nat :| OccursAt(s[1..], sub, i);
          assert s[i + 1..i + 1 + |sub|] == s[1..][i..i + |sub|];
          assert OccursAt(s, sub, i + 1);
        }
        true
      else
        assert forall i: nat :: !OccursAt(s, sub, i) by {
          forall i: nat | OccursAt(s, sub, i) ensures i == 0 || OccursAt(s[1..], sub, i - 1) {
            if i > 0 {
              assert s[1..][i - 1..i - 1 + |sub|] == s[i..i + |sub|];
            }
          }
        }
        false
  }

  /** Every character of a substring of `s` is a character of `s`. */
  lemma ContainsChar(s: string, sub: string, c: char)
    requires Contains(s, sub) && c in sub
    ensures c in s
  {
    var i: nat :| OccursAt(s, sub, i);
    var k :| 0 <= k < |sub| && sub[k] == c;
    assert s[i..i + |sub|][k] == s[i + k];
  }

  /** unicode.ToLower restricted to ASCII: 'A'..'Z' become 'a'..'z', every other character is kept. */
  function LowerAscii(c: char): (r: char)
    ensures 'A' <= c <= 'Z' ==> 'a' <= r <= 'z' && r as int == c as int - 'A' as int + 'a' as int
    ensures !('A' <= c <= 'Z') ==> r == c
  {
    if 'A' <= c <= 'Z' then (c as int - 'A' as int + 'a' as int) as char else c
  }

  /** strings.ToLower over ASCII: every character is lower-cased in place. */
  function ToLower(s: string): (r: string)
    ensures |r| == |s|
    ensures forall i :: 0 <= i < |s| ==> r[i] == LowerAscii(s[i])
    decreases |s|
  {
    if s == [] then [] else [LowerAscii(s[0])] + ToLower(s[1..])
  }

  /** Lower-casing keeps spaces exactly where they were. */
  lemma ToLowerKeepsSpaces(s: string)
    ensures ' ' in ToLower(s) <==> ' ' in s
  {
    var r := ToLower(s);
    if ' ' in r {
      var i :| 0 <= i < |r| && r[i] == ' ';
      assert LowerAscii(s[i]) == ' ';
    }
    if ' ' in s {
      var i :| 0 <= i < |s| && s[i] == ' ';
      assert r[i] == ' ';
    }
  }

  /**
   * strings.Split with a one-character separator: the pieces of `s` between
   * separators, so `k` separators give `k + 1` pieces (and "" gives [""]).
   */
  function Split(s: string, sep: char): (parts: seq<string>)
    ensures |parts| >= 1
    ensures forall k :: 0 <= k < |parts| ==> sep !in parts[k]
    ensures |parts| >= 2 <==> sep in s
    decreases |s|
  {
    if s == [] then [""]
    else
      var rest := Split(s[1..], sep);
      if s[0] == sep then [""] + rest
      else [[s[0]] + rest[0]] + rest[1..]
  }

  /** strings.Join: the pieces with one separator between consecutive pieces. */
  function Join(parts: seq<string>, sep: char): (s: string)
    requires |parts| >= 1
    ensures |s| == |parts| - 1 + SumLengths(parts)
    decreases |parts|
  {
    if |parts| == 1 then parts[0] else parts[0] + [sep] + Join(parts[1..], sep)
  }

  function SumLengths(parts: seq<string>): nat
  {
    if parts == [] then 0 else |parts[0]| + SumLengths(parts[1..])
  }

  /** Split on a string that starts with character `c`, one step. */
  lemma SplitCons(c: char, t: string, sep: char)
    ensures Split([c] + t, sep) ==
            if c == sep then [""] + Split(t, sep) else [[c] + Split(t, sep)[0]] + Split(t, sep)[1..]
  {
    assert ([c] + t)[1..] == t;
  }

  /** Join of two or more pieces, one step. */
  lemma JoinCons(parts: seq<string>, sep: char)
    requires |parts| >= 2
    ensures Join(parts, sep) == parts[0] + [sep] + Join(parts[1..], sep)
  {
  }

  /** Joining the pieces of a split gives back the original string. */
  lemma {:induction false} JoinSplit(s: string, sep: char)
    ensures Join(Split(s, sep), sep) == s
    decreases |s|
  {
    if s != [] {
      var c, t := s[0], s[1..];
      assert s == [c] + t;
      JoinSplit(t, sep);
      var rest := Split(t, sep);
      SplitCons(c, t, sep);
      var parts := Split(s, sep);
      if c == sep {
        assert parts == [""] + rest;
        JoinCons(parts, sep);
        assert parts[1..] == rest;
      } else if |rest| == 1 {
        assert parts == [[c] + rest[0]];
      } else {
        assert parts[1..] == rest[1..];
        JoinCons(parts, sep);
        JoinCons(rest, sep);
      }
    }
  }

  /** Splitting a join of separator-free pieces gives back the pieces. */
  lemma {:induction false} SplitJoin(parts: seq<string>, sep: char)
    requires |parts| >= 1
    requires forall k :: 0 <= k < |parts| ==> sep !in parts[k]
    ensures Split(Join(parts, sep), sep) == parts
    decreases |parts|, |parts[0]|
  {
    var p := parts[0];
    if |parts| == 1 {
      SplitPlain(p, sep);
    } else if p == [] {
      SplitJoin(parts[1..], sep);
      SplitJoinEmptyHead(parts, sep);
    } else {
      var shorter := [p[1..]] + parts[1..];
      assert shorter[0] == p[1..] && shorter[1..] == parts[1..];
      SplitJoin(shorter, sep);
      SplitJoinLongerHead(parts, sep);
    }
  }

  /** SplitJoin's step when the first piece is empty: the join starts with a separator. */
  lemma SplitJoinEmptyHead(parts: seq<string>, sep: char)
    requires |parts| >= 2 && parts[0] == []
    requires Split(Join(parts[1..], sep), sep) == parts[1..]
    ensures Split(Join(parts, sep), sep) == parts
  {
    var tail := Join(parts[1..], sep);
    assert Join(parts, sep) == [sep] + tail by {
      JoinCons(parts, sep);
    }
    assert Split([sep] + tail, sep) == [""] + parts[1..] by {
      SplitCons(sep, tail, sep);
    }
    assert [""] + parts[1..] == parts;
  }

  /** SplitJoin's step when the first piece starts with a character other than the separator. */
  lemma SplitJoinLongerHead(parts: seq<string>, sep: char)
    requires |parts| >= 2 && parts[0] != [] && parts[0][0] != sep
    requires Split(Join([parts[0][1..]] + parts[1..], sep), sep) == [parts[0][1..]] + parts[1..]
    ensures Split(Join(parts, sep), sep) == parts
  {
    var p := parts[0];
    var shorter := [p[1..]] + parts[1..];
    var tail := Join(shorter, sep);
    assert Join(parts, sep) == [p[0]] + tail by {
      assert shorter[0] == p[1..] && shorter[1..] == parts[1..];
      JoinCons(parts, sep);
      JoinCons(shorter, sep);
    }
    assert Split([p[0]] + tail, sep) == [[p[0]] + p[1..]] + parts[1..] by {
      SplitCons(p[0], tail, sep);
      assert shorter[0] == p[1..] && shorter[1..] == parts[1..];
    }
    assert [[p[0]] + p[1..]] + parts[1..] == parts by {
      assert [p[0]] + p[1..] == p;
    }
  }

  /** A string without separators splits into itself. */
  lemma {:induction false} SplitPlain(s: string, sep: char)
    requires sep !in s
    ensures Split(s, sep) == [s]
    decreases |s|
  {
    if s != [] {
      SplitPlain(s[1..], sep);
      assert [s[0]] + s[1..] == s;
    }
  }
}
