/** The string operations the source relies on: ASCII `toLowerCase`,
    `includes`, `split` on one character, and hexadecimal digits. */
module Text {

  // ------------------------------------------------------------ lower case

  predicate IsUpper(c: char) { 'A' <= c <= 'Z' }

  /** `toLowerCase` on one character, restricted to ASCII. */
  function LowerChar(c: char): (r: char)
    ensures !IsUpper(r)
    ensures IsUpper(c) ==> r as int == c as int + 32
    ensures !IsUpper(c) ==> r == c
  {
    if IsUpper(c) then (c as int + 32) as char else c
  }

  /** `s.toLowerCase()` on ASCII text. */
  function Lower(s: string): (r: string)
    ensures |r| == |s|
    ensures forall i :: 0 <= i < |s| ==> r[i] == LowerChar(s[i])
  {
    if s == [] then [] else [LowerChar(s[0])] + Lower(s[1..])
  }

  /** Lower-casing twice changes nothing more than lower-casing once. */
  lemma LowerIdempotent(s: string)
    ensures Lower(Lower(s)) == Lower(s)
  {
    assert forall i :: 0 <= i < |s| ==> Lower(Lower(s))[i] == Lower(s)[i];
  }

  // -------------------------------------------------------------- includes

  predicate StartsWith(s: string, prefix: string)
  {
    |prefix| <= |s| && s[..|prefix|] == prefix
  }

  /** `s.includes(t)`: `t` occurs in `s` as a contiguous block. */
  predicate Includes(s: string, t: string)
    decreases |s|
  {
    StartsWith(s, t) || (s != [] && Includes(s[1..], t))
  }

  /** `t` occurs in `s` starting at position `i`. */
  predicate OccursAt(s: string, t: string, i: int)
  {
    0 <= i <= |s| - |t| && s[i..i + |t|] == t
  }

  /** `Includes` finds exactly the positions where `t` occurs. */
  lemma {:induction false} IncludesIffOccurs(s: string, t: string)
    ensures Includes(s, t) <==> exists i :: OccursAt(s, t, i)
    decreases |s|
  {
    if s == [] {
      if Includes(s, t) {
        assert OccursAt(s, t, 0);
      }
    } else {
      IncludesIffOccurs(s[1..], t);
      if StartsWith(s, t) {
        assert OccursAt(s, t, 0);
      } else if Includes(s[1..], t) {
        var i :| OccursAt(s[1..], t, i);
        assert s[i + 1..i + 1 + |t|] == s[1..][i..i + |t|];
        assert OccursAt(s, t, i + 1);
      }
      if i :| OccursAt(s, t, i) {
        if i > 0 {
          assert s[1..][i - 1..i - 1 + |t|] == s[i..i + |t|];
          assert OccursAt(s[1..], t, i - 1);
        } else {
          assert StartsWith(s, t);
        }
      }
    }
  }

  /** A string that includes `a + b` includes `a`. */
  lemma IncludesPrefixOf(s: string, a: string, b: string)
    requires Includes(s, a + b)
    ensures Includes(s, a)
  {
    IncludesIffOccurs(s, a + b);
    IncludesIffOccurs(s, a);
    var i :| OccursAt(s, a + b, i);
    assert s[i..i + |a|] == (a + b)[..|a|] == a;
    assert OccursAt(s, a, i);
  }

  /** Lower-casing works character by character. */
  lemma LowerAppend(a: string, b: string)
    ensures Lower(a + b) == Lower(a) + Lower(b)
  {
    assert forall i :: 0 <= i < |a + b| ==> Lower(a + b)[i] == (Lower(a) + Lower(b))[i];
  }

  /** The empty string is included in every string. */
  lemma IncludesEmpty(s: string)
    ensures Includes(s, "")
  {
    assert StartsWith(s, "");
  }

  // ----------------------------------------------------------------- split

  /** `s.split(sep)`: the fields between occurrences of `sep`; there is always
      at least one field, and `"".split(sep)` is `[""]`. */
  function Split(s: string, sep: char): (r: seq<string>)
    ensures |r| >= 1
    ensures forall i :: 0 <= i < |r| ==> sep !in r[i]
  {
    if s == [] then [""]
    else
      var rest := Split(s[1..], sep);
      if s[0] == sep then [""] + rest
      else [[s[0]] + rest[0]] + rest[1..]
  }

  /** `fields.join(sep)`. */
  function Join(fields: seq<string>, sep: char): string
    requires |fields| >= 1
  {
    if |fields| == 1 then fields[0] else fields[0] + [sep] + Join(fields[1..], sep)
  }

  /** Joining the fields with the separator gives back the text: `split`
      loses nothing. */
  lemma {:induction false} JoinSplit(s: string, sep: char)
    ensures Join(Split(s, sep), sep) == s
  {
    if s != [] {
      var rest := Split(s[1..], sep);
      JoinSplit(s[1..], sep);
      if s[0] == sep {
        assert Split(s, sep)[1..] == rest;
      } else {
        var r := Split(s, sep);
        assert r[0] == [s[0]] + rest[0];
        if |rest| == 1 {
          assert [s[0]] + s[1..] == s;
        } else {
          assert r[1..] == rest[1..];
          assert Join(rest, sep) == rest[0] + [sep] + Join(rest[1..], sep);
          assert [s[0]] + s[1..] == s;
        }
      }
    }
  }

  /** Text without the separator is a single field. */
  lemma {:induction false} SplitWithoutSeparator(s: string, sep: char)
    requires sep !in s
    ensures Split(s, sep) == [s]
  {
    if s != [] {
      SplitWithoutSeparator(s[1..], sep);
      assert [s[0]] + s[1..] == s;
    }
  }

  /** A word without the separator, then the separator, then the rest: the
      word is the first field and the rest is split on its own. */
  lemma {:induction false} SplitAfterWord(w: string, sep: char, t: string)
    requires sep !in w
    ensures Split(w + [sep] + t, sep) == [w] + Split(t, sep)
  {
    if w == [] {
      assert w + [sep] + t == [sep] + t;
      assert ([sep] + t)[1..] == t;
    } else {
      var s := w + [sep] + t;
      assert s[0] == w[0] && s[1..] == w[1..] + [sep] + t;
      SplitAfterWord(w[1..], sep, t);
      assert [w[0]] + w[1..] == w;
    }
  }

  // ----------------------------------------------------------- hex digits

  /** One character of the class `[0-9A-Fa-f]`. */
  predicate IsHexDigit(c: char)
  {
    ('0' <= c <= '9') || ('a' <= c <= 'f') || ('A' <= c <= 'F')
  }
}
