/**
 * The few Python `str` operations the scraper's parsers rely on:
 * `isspace`/`strip`, `upper`, `split(sep, 1)`, `in` (substring test) and
 * `replace('\n', '')`.
 */
module Text {
  import opened Outcomes

  /** The characters for which Python's `str.isspace()` holds, which `str.strip()` removes. */
  predicate IsSpace(c: char)
  {
    || c == ' '
    || ('\t' <= c <= '\r')
    || ('\U{1c}' <= c <= '\U{1f}')
    || c == '\U{85}' || c == '\U{a0}' || c == '\U{1680}'
    || ('\U{2000}' <= c <= '\U{200a}')
    || c == '\U{2028}' || c == '\U{2029}' || c == '\U{202f}'
    || c == '\U{205f}' || c == '\U{3000}'
  }

  predicate IsLowerAscii(c: char)
  {
    'a' <= c <= 'z'
  }

  /** Upper-cases one character (ASCII letters only). */
  function UpperChar(c: char): (u: char)
    ensures !IsLowerAscii(u)
    ensures u == ':' <==> c == ':'
    ensures !IsLowerAscii(c) ==> u == c
    ensures IsLowerAscii(c) ==> u as int == c as int - 32
  {
    if IsLowerAscii(c) then (c as int - 32) as char else c
  }

  /** `s.upper()` */
  function Upper(s: string): (r: string)
    ensures |r| == |s|
  {
    if |s| == 0 then [] else [UpperChar(s[0])] + Upper(s[1..])
  }

  /** `s.upper()` maps each character on its own and keeps the others in place. */
  lemma {:induction false} UpperAt(s: string)
    ensures forall i :: 0 <= i < |s| ==> Upper(s)[i] == UpperChar(s[i])
  {
    if |s| > 0 {
      UpperAt(s[1..]);
    }
  }

  /** Text without lower-case ASCII letters is its own upper case. */
  lemma {:induction false} UpperKeeps(s: string)
    requires forall c :: c in s ==> !IsLowerAscii(c)
    ensures Upper(s) == s
  {
    if |s| > 0 {
      assert s[0] in s;
      assert forall c :: c in s[1..] ==> c in s;
      UpperKeeps(s[1..]);
    }
  }

  /** `s.upper()` holds a `:` exactly where `s` does, and no lower-case ASCII letter. */
  lemma UpperColon(s: string)
    ensures ':' in Upper(s) <==> ':' in s
    ensures forall c :: c in Upper(s) ==> !IsLowerAscii(c)
  {
    UpperAt(s);
    if ':' in s {
      var i :| 0 <= i < |s| && s[i] == ':';
      assert Upper(s)[i] == ':';
    }
  }

  lemma {:induction false} UpperTake(s: string, i: nat)
    requires i <= |s|
    ensures Upper(s)[..i] == Upper(s[..i])
  {
    if i > 0 {
      UpperTake(s[1..], i - 1);
      assert s[..i][1..] == s[1..][..i - 1];
    }
  }

  lemma {:induction false} UpperDrop(s: string, i: nat)
    requires i <= |s|
    ensures Upper(s)[i..] == Upper(s[i..])
  {
    if i > 0 {
      UpperDrop(s[1..], i - 1);
      assert s[i..] == s[1..][i - 1..];
    }
  }

  /** `s.lstrip()` */
  function TrimStart(s: string): (r: string)
    ensures |r| <= |s|
  {
    if |s| > 0 && IsSpace(s[0]) then TrimStart(s[1..]) else s
  }

  /** `s.lstrip()` drops exactly the leading white space. */
  lemma {:induction false} TrimStartSpec(s: string)
    ensures TrimStart(s) == s[|s| - |TrimStart(s)|..]
    ensures forall k :: 0 <= k < |s| - |TrimStart(s)| ==> IsSpace(s[k])
    ensures TrimStart(s) == [] || !IsSpace(TrimStart(s)[0])
  {
    if |s| > 0 && IsSpace(s[0]) {
      TrimStartSpec(s[1..]);
    }
  }

  /** `s.rstrip()` */
  function TrimEnd(s: string): (r: string)
    ensures |r| <= |s|
  {
    if |s| > 0 && IsSpace(s[|s| - 1]) then TrimEnd(s[..|s| - 1]) else s
  }

  /** `s.rstrip()` drops exactly the trailing white space. */
  lemma {:induction false} TrimEndSpec(s: string)
    ensures TrimEnd(s) == s[..|TrimEnd(s)|]
    ensures forall k :: |TrimEnd(s)| <= k < |s| ==> IsSpace(s[k])
    ensures TrimEnd(s) == [] || !IsSpace(TrimEnd(s)[|TrimEnd(s)| - 1])
  {
    if |s| > 0 && IsSpace(s[|s| - 1]) {
      TrimEndSpec(s[..|s| - 1]);
    }
  }

  /** How many white-space characters `s` starts with. */
  function LeadingSpaces(s: string): (n: nat)
    ensures n <= |s|
  {
    |s| - |TrimStart(s)|
  }

  /**
   * `s.strip()`: the longest slice of `s` that neither starts nor ends
   * with white space; everything cut off on either side is white space.
   */
  function Strip(s: string): (r: string)
    ensures |r| <= |s|
  {
    TrimEnd(TrimStart(s))
  }

  /**
   * `s.strip()` is the slice of `s` left after cutting the leading and the
   * trailing white space; it neither starts nor ends with white space.
   */
  lemma StripSlice(s: string)
    ensures LeadingSpaces(s) + |Strip(s)| <= |s|
    ensures Strip(s) == s[LeadingSpaces(s)..LeadingSpaces(s) + |Strip(s)|]
    ensures forall k :: LeadingSpaces(s) + |Strip(s)| <= k < |s| ==> IsSpace(s[k])
    ensures Strip(s) == [] || (!IsSpace(Strip(s)[0]) && !IsSpace(Strip(s)[|Strip(s)| - 1]))
    ensures forall k :: 0 <= k < LeadingSpaces(s) ==> IsSpace(s[k])
  {
    TrimStartSpec(s);
    TrimEndSpec(TrimStart(s));
  }

  /** Text that neither starts nor ends with white space is left alone by `strip()`. */
  lemma StripKeeps(s: string)
    requires s == [] || (!IsSpace(s[0]) && !IsSpace(s[|s| - 1]))
    ensures Strip(s) == s
  {
  }

  /** Every character of `Strip(s)` is a character of `s`. */
  lemma StripChars(s: string)
    ensures forall c :: c in Strip(s) ==> c in s
  {
    StripSlice(s);
    var r, i := Strip(s), LeadingSpaces(s);
    forall c | c in r ensures c in s {
      var k :| 0 <= k < |r| && r[k] == c;
      assert s[i + k] == c;
    }
  }

  /** Upper-casing does not move the first `:`. */
  lemma UpperIndexOfColon(s: string)
    requires ':' in s
    ensures ':' in Upper(s) && IndexOf(Upper(s), ':') == IndexOf(s, ':')
  {
    var k := IndexOf(s, ':');
    UpperColon(s);
    UpperTake(s, k);
    UpperColon(s[..k]);
    UpperAt(s);
    IndexOfUnique(Upper(s), ':', k);
  }

  /** Index of the first occurrence of `c` in `s` (`s.index(c)`). */
  function IndexOf(s: string, c: char): (k: nat)
    requires c in s
    ensures k < |s| && s[k] == c && c !in s[..k]
  {
    if s[0] == c then 0 else 1 + IndexOf(s[1..], c)
  }

  /** The first occurrence of `c` is the one with no `c` before it. */
  lemma {:induction false} IndexOfUnique(s: string, c: char, k: nat)
    requires k < |s| && s[k] == c && c !in s[..k]
    ensures IndexOf(s, c) == k
  {
    if k > 0 {
      assert s[0] in s[..k];
      assert s[1..][..k - 1] == s[..k][1..];
      IndexOfUnique(s[1..], c, k - 1);
    }
  }

  /**
   * `s.split(sep, 1)` as a pair: the text before the first `sep` and the
   * rest after it, or None when `sep` does not occur (the split then yields
   * a single piece).
   */
  function SplitFirst(s: string, sep: char): (r: Option<(string, string)>)
    ensures r.None? <==> sep !in s
  {
    if sep in s then
      var k := IndexOf(s, sep);
      Some((s[..k], s[k + 1..]))
    else
      None
  }

  /** `pat` occurs in `text` starting at offset `i`. */
  predicate OccursAt(text: string, pat: string, i: int)
  {
    0 <= i <= |text| - |pat| && text[i..i + |pat|] == pat
  }

  /** Python's `pat in text` for strings, scanning `text` from the left. */
  predicate Contains(text: string, pat: string)
    decreases |text|
  {
    pat <= text || (|text| > 0 && Contains(text[1..], pat))
  }

  /** An occurrence in `text` after its first character is an occurrence in `text[1..]`, one offset earlier. */
  lemma OccursShift(text: string, pat: string, i: nat)
    requires |text| > 0
    ensures OccursAt(text, pat, i + 1) <==> OccursAt(text[1..], pat, i)
  {
    if 0 <= i <= |text| - 1 - |pat| {
      assert text[1..][i..i + |pat|] == text[i + 1..i + 1 + |pat|];
    }
  }

  /** An occurrence at offset 0 is a prefix. */
  lemma OccursAtStart(text: string, pat: string)
    ensures OccursAt(text, pat, 0) <==> pat <= text
  {
  }

  /** `Contains` holds exactly when `pat` sits at some offset of `text`. */
  lemma {:induction false} ContainsAt(text: string, pat: string)
    ensures Contains(text, pat) <==> exists i :: OccursAt(text, pat, i)
    decreases |text|
  {
    OccursAtStart(text, pat);
    if pat <= text {
      assert OccursAt(text, pat, 0);
    } else if |text| > 0 {
      ContainsAt(text[1..], pat);
      if Contains(text[1..], pat) {
        var i :| OccursAt(text[1..], pat, i);
        OccursShift(text, pat, i);
      }
      forall i | OccursAt(text, pat, i) ensures Contains(text[1..], pat) {
        OccursShift(text, pat, i - 1);
      }
    }
  }

  /** `s.replace('\n', '')`: `s` with every line feed removed, all else kept in order. */
  function RemoveNewlines(s: string): (r: string)
    ensures '\n' !in r
    ensures |r| <= |s|
    ensures forall c :: c in r ==> c in s
    ensures '\n' !in s ==> r == s
  {
    if |s| == 0 then []
    else (if s[0] == '\n' then [] else [s[0]]) + RemoveNewlines(s[1..])
  }

  /** Exactly the line feeds are removed: the result is shorter by their number. */
  lemma {:induction false} RemoveNewlinesCount(s: string)
    ensures |RemoveNewlines(s)| == |s| - multiset(s)['\n']
  {
    if |s| > 0 {
      assert s == [s[0]] + s[1..];
      RemoveNewlinesCount(s[1..]);
    }
  }

  /** A single character is dropped when it is a line feed and kept otherwise. */
  lemma RemoveNewlinesChar(c: char)
    ensures RemoveNewlines([c]) == if c == '\n' then [] else [c]
  {
    assert [c][1..] == [];
  }

  /**
   * Removing line feeds works piece by piece: together with
   * `RemoveNewlinesChar` this fixes the result's contents and their order.
   */
  lemma {:induction false} RemoveNewlinesAppend(a: string, b: string)
    ensures RemoveNewlines(a + b) == RemoveNewlines(a) + RemoveNewlines(b)
  {
    if |a| == 0 {
      assert a + b == b;
    } else {
      assert (a + b)[0] == a[0];
      assert (a + b)[1..] == a[1..] + b;
      RemoveNewlinesAppend(a[1..], b);
    }
  }
}
