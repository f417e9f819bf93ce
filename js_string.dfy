/** The string built-ins the components use: `trim`, the tag-stripping
    `replace(/<[^>]*>/g, rep)`, `toLowerCase`, `includes`, `startsWith` and
    `replace('@', '')`. Strings are sequences of characters. */
module JsString {

  /** The characters `String.prototype.trim` removes: ECMAScript WhiteSpace and
      LineTerminator. */
  predicate IsSpace(c: char) {
    || c == ' ' || c == '\t' || c == '\n' || c == '\r'
    || c == '\U{000B}' || c == '\U{000C}' || c == '\U{00A0}' || c == '\U{1680}'
    || ('\U{2000}' <= c <= '\U{200A}')
    || c == '\U{2028}' || c == '\U{2029}' || c == '\U{202F}' || c == '\U{205F}'
    || c == '\U{3000}' || c == '\U{FEFF}'
  }

  function TrimStart(s: string): (r: string)
    ensures |r| <= |s| && r == s[|s| - |r|..]
    ensures forall i :: 0 <= i < |s| - |r| ==> IsSpace(s[i])
    ensures r == [] || !IsSpace(r[0])
  {
    if s != [] && IsSpace(s[0]) then TrimStart(s[1..]) else s
  }

  function TrimEnd(s: string): (r: string)
    ensures |r| <= |s| && r == s[..|r|]
    ensures forall i :: |r| <= i < |s| ==> IsSpace(s[i])
    ensures r == [] || !IsSpace(r[|r| - 1])
  {
    if s != [] && IsSpace(s[|s| - 1]) then TrimEnd(s[..|s| - 1]) else s
  }

  /** `s.trim()` */
  function Trim(s: string): string {
    TrimEnd(TrimStart(s))
  }

  /** `!s.trim()`: the string trims to the empty string. */
  predicate Blank(s: string) {
    Trim(s) == ""
  }

  /** Some character of `s` is not white space. */
  predicate Visible(s: string) {
    exists i :: 0 <= i < |s| && !IsSpace(s[i])
  }

  /** A string is blank exactly when every character of it is white space. */
  lemma BlankIff(s: string)
    ensures Blank(s) <==> forall i :: 0 <= i < |s| ==> IsSpace(s[i])
    ensures Blank(s) <==> !Visible(s)
  {
    var t := TrimStart(s);
    if t != [] {
      // `t` starts with a character that is not white space, which TrimEnd keeps
      assert !IsSpace(t[0]) && t[0] == s[|s| - |t|];
      assert TrimEnd(t) != [];
    }
  }

  /** The index of the first `c` in `s`, or `|s|` when there is none. */
  function IndexOf(s: string, c: char): (i: nat)
    ensures i <= |s|
    ensures i < |s| ==> s[i] == c
    ensures forall j :: 0 <= j < i ==> s[j] != c
  {
    if s == [] then 0 else if s[0] == c then 0 else 1 + IndexOf(s[1..], c)
  }

  /** `s.replace(/<[^>]*>/g, rep)`: scanning left to right, every `<` that has a
      `>` somewhere after it starts a match that runs to the first such `>`; the
      match is replaced by `rep`. A `<` with no `>` after it is kept. */
  function ReplaceTags(s: string, rep: string): string
    decreases |s|
  {
    if s == [] then []
    else if s[0] == '<' && IndexOf(s, '>') < |s| then
      rep + ReplaceTags(s[IndexOf(s, '>') + 1..], rep)
    else
      [s[0]] + ReplaceTags(s[1..], rep)
  }

  /** No `<` in `s` is followed, anywhere later, by a `>`: the pattern
      `<[^>]*>` matches nowhere in it. */
  predicate TagFree(s: string) {
    forall i, j :: 0 <= i < j < |s| && s[i] == '<' ==> s[j] != '>'
  }

  /** Replacing tags never introduces a `>` that was not already there. */
  lemma {:induction false} ReplaceTagsNoClose(s: string, rep: string)
    requires '>' !in s && '>' !in rep
    ensures '>' !in ReplaceTags(s, rep)
  {
    if s != [] {
      assert IndexOf(s, '>') == |s|;
      assert forall c :: c in s[1..] ==> c in s;
      ReplaceTagsNoClose(s[1..], rep);
    }
  }

  lemma TagFreeAppend(a: string, b: string)
    requires '<' !in a && TagFree(b)
    ensures TagFree(a + b)
  {
    var ab := a + b;
    forall i, j | 0 <= i < j < |ab| && ab[i] == '<'
      ensures ab[j] != '>'
    {
      assert i >= |a|;
      assert ab[i] == b[i - |a|] && ab[j] == b[j - |a|];
    }
  }

  lemma TagFreeAppend2(a: string, b: string)
    requires TagFree(a) && '<' !in b && '>' !in b
    ensures TagFree(a + b)
  {
    var ab := a + b;
    forall i, j | 0 <= i < j < |ab| && ab[i] == '<'
      ensures ab[j] != '>'
    {
      assert i < |a|;
      if j >= |a| {
        assert ab[j] == b[j - |a|];
      } else {
        assert ab[i] == a[i] && ab[j] == a[j];
      }
    }
  }

  /** After the replacement (with a replacement free of `<` and `>`), no tag
      is left: the result is tag-free. */
  lemma {:induction false} ReplaceTagsIsTagFree(s: string, rep: string)
    requires '<' !in rep && '>' !in rep
    ensures TagFree(ReplaceTags(s, rep))
    decreases |s|
  {
    if s == [] {
    } else if s[0] == '<' && IndexOf(s, '>') < |s| {
      ReplaceTagsIsTagFree(s[IndexOf(s, '>') + 1..], rep);
      TagFreeAppend(rep, ReplaceTags(s[IndexOf(s, '>') + 1..], rep));
    } else {
      var rest := ReplaceTags(s[1..], rep);
      ReplaceTagsIsTagFree(s[1..], rep);
      if s[0] == '<' {
        assert '>' !in s[1..] by {
          assert IndexOf(s, '>') == |s|;
        }
        ReplaceTagsNoClose(s[1..], rep);
        assert TagFree([s[0]] + rest) by {
          var r := [s[0]] + rest;
          forall i, j | 0 <= i < j < |r| && r[i] == '<'
            ensures r[j] != '>'
          {
            assert r[j] == rest[j - 1];
          }
        }
      } else {
        TagFreeAppend([s[0]], rest);
      }
    }
  }

  /** On a tag-free string the replacement changes nothing, whatever `rep` is. */
  lemma {:induction false} ReplaceTagsFixesTagFree(s: string, rep: string)
    requires TagFree(s)
    ensures ReplaceTags(s, rep) == s
  {
    if s != [] {
      if s[0] == '<' {
        assert IndexOf(s, '>') == |s| by {
          if IndexOf(s, '>') < |s| {
            assert s[0] == '<' && s[IndexOf(s, '>')] == '>';
          }
        }
      }
      assert TagFree(s[1..]) by {
        forall i, j | 0 <= i < j < |s[1..]| && s[1..][i] == '<'
          ensures s[1..][j] != '>'
        {
          assert s[i + 1] == '<';
        }
      }
      ReplaceTagsFixesTagFree(s[1..], rep);
    }
  }

  /** Stripping tags twice is stripping them once. */
  lemma StripTagsIdempotent(s: string)
    ensures ReplaceTags(ReplaceTags(s, ""), "") == ReplaceTags(s, "")
  {
    ReplaceTagsIsTagFree(s, "");
    ReplaceTagsFixesTagFree(ReplaceTags(s, ""), "");
  }

  /** Text without `<` comes through the replacement unchanged. */
  lemma PlainTextUnchanged(s: string, rep: string)
    requires '<' !in s
    ensures ReplaceTags(s, rep) == s
  {
    ReplaceTagsFixesTagFree(s, rep);
  }

  /** A prefix of a tag-free string is tag-free. */
  lemma TagFreePrefix(s: string, n: nat)
    requires TagFree(s) && n <= |s|
    ensures TagFree(s[..n])
  {
    forall i, j | 0 <= i < j < n && s[..n][i] == '<'
      ensures s[..n][j] != '>'
    {
      assert s[i] == '<';
    }
  }

  /** `c.toLowerCase()` for the ASCII letters; every other character is kept. */
  function LowerChar(c: char): char {
    if 'A' <= c <= 'Z' then (c as int + 32) as char else c
  }

  /** `s.toLowerCase()` */
  function Lower(s: string): (r: string)
    ensures |r| == |s|
    ensures forall i :: 0 <= i < |s| ==> r[i] == LowerChar(s[i])
  {
    seq(|s|, i requires 0 <= i < |s| => LowerChar(s[i]))
  }

  /** Lower-casing is idempotent, so a query and its lower-cased form search alike. */
  lemma LowerIdempotent(s: string)
    ensures Lower(Lower(s)) == Lower(s)
  {
  }

  /** `hay.includes(needle)` */
  predicate Includes(hay: string, needle: string)
    decreases |hay|
  {
    needle <= hay || (hay != [] && Includes(hay[1..], needle))
  }

  /** `needle` occurs in `hay` at offset `k`. */
  predicate OccursAt(hay: string, needle: string, k: nat) {
    k + |needle| <= |hay| && hay[k..k + |needle|] == needle
  }

  /** `includes` holds iff `needle` occurs at some offset of `hay`. */
  lemma {:induction false} IncludesIff(hay: string, needle: string)
    ensures Includes(hay, needle) <==> exists k: nat :: OccursAt(hay, needle, k)
    decreases |hay|
  {
    if needle <= hay {
      assert OccursAt(hay, needle, 0);
    }
    if hay != [] {
      IncludesIff(hay[1..], needle);
      if exists k: nat :: OccursAt(hay[1..], needle, k) {
        var k: nat :| OccursAt(hay[1..], needle, k);
        assert hay[k + 1..k + 1 + |needle|] == hay[1..][k..k + |needle|];
        assert OccursAt(hay, needle, k + 1);
      }
      if exists k: nat :: OccursAt(hay, needle, k) {
        var k: nat :| OccursAt(hay, needle, k);
        if k > 0 {
          assert hay[1..][k - 1..k - 1 + |needle|] == hay[k..k + |needle|];
          assert OccursAt(hay[1..], needle, k - 1);
        } else {
          assert needle <= hay;
        }
      }
    } else {
      if exists k: nat :: OccursAt(hay, needle, k) {
        var k: nat :| OccursAt(hay, needle, k);
        assert needle == [];
      }
    }
  }

  /** Every string includes the empty string. */
  lemma IncludesEmpty(hay: string)
    ensures Includes(hay, "")
  {
  }

  /** `s.startsWith(c)` for a one-character prefix. */
  predicate StartsWith(s: string, c: char) {
    |s| > 0 && s[0] == c
  }

  /** `s.replace(c, '')` with a one-character string pattern: only the FIRST
      occurrence, wherever it is, is removed. */
  function RemoveFirst(s: string, c: char): (r: string)
    ensures c !in s ==> r == s
    ensures c in s ==> |r| == |s| - 1 && multiset(r) + multiset{c} == multiset(s)
  {
    if s == [] then s
    else
      assert s == [s[0]] + s[1..];
      if s[0] == c then s[1..]
      else [s[0]] + RemoveFirst(s[1..], c)
  }

  /** The character removed is the first occurrence: when `c` stands at `i`
      and nowhere before, everything before `i` and everything after it is
      kept in place. */
  lemma {:induction false} RemoveFirstAt(s: string, c: char, i: nat)
    requires i < |s| && s[i] == c
    requires forall j :: 0 <= j < i ==> s[j] != c
    ensures RemoveFirst(s, c) == s[..i] + s[i + 1..]
  {
    var t := s[1..];
    if i == 0 {
      assert s[..0] + s[1..] == t;
    } else {
      assert RemoveFirst(s, c) == [s[0]] + RemoveFirst(t, c);
      assert forall j :: 0 <= j < i - 1 ==> t[j] == s[j + 1];
      RemoveFirstAt(t, c, i - 1);
      assert s[..i] == [s[0]] + t[..i - 1];
      assert s[i + 1..] == t[i..];
      assert [s[0]] + (t[..i - 1] + t[i..]) == ([s[0]] + t[..i - 1]) + t[i..];
    }
  }
}
