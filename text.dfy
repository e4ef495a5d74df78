/** The string operations of Python that the loader and the formatter rely on:
    `str.strip`, `str.split(sep)`, `sep.join`, `str.startswith` (Dafny's prefix
    relation `<=` on sequences) and `str.title`, restricted to ASCII. */
module Text {

  /** `str.isspace` on ASCII: space, the controls \t \n \v \f \r (9-13) and the
      separators 0x1c-0x1f. */
  predicate IsSpace(c: char) {
    c == ' ' || 9 <= c as int <= 13 || 28 <= c as int <= 31
  }

  /** The number of leading whitespace characters of `s`. */
  function Indent(s: string): (k: nat)
    ensures k <= |s|
    ensures forall j :: 0 <= j < k ==> IsSpace(s[j])
    ensures k < |s| ==> !IsSpace(s[k])
  {
    if s != [] && IsSpace(s[0]) then 1 + Indent(s[1..]) else 0
  }

  /** `str.rstrip()`: drops the trailing whitespace and nothing else. */
  function StripEnd(s: string): (r: string)
    ensures |r| <= |s| && r == s[..|r|]
    ensures forall k :: |r| <= k < |s| ==> IsSpace(s[k])
    ensures r != [] ==> !IsSpace(r[|r| - 1])
  {
    if s != [] && IsSpace(s[|s| - 1]) then StripEnd(s[..|s| - 1]) else s
  }

  /** `str.strip()`: the slice of `s` left once the leading and the trailing
      whitespace are removed; it neither starts nor ends with whitespace. */
  function Strip(s: string): (r: string)
    ensures Indent(s) + |r| <= |s| && r == s[Indent(s)..Indent(s) + |r|]
    ensures forall k :: Indent(s) + |r| <= k < |s| ==> IsSpace(s[k])
    ensures r != [] ==> !IsSpace(r[0]) && !IsSpace(r[|r| - 1])
  {
    StripEnd(s[Indent(s)..])
  }

  /** A line strips to the empty string exactly when it is all whitespace. */
  lemma StripBlank(s: string)
    ensures Strip(s) == [] <==> forall k :: 0 <= k < |s| ==> IsSpace(s[k])
  {
  }

  /** The index of the first character of `s` that is in `stops`, or `|s|`. */
  function Find(s: string, stops: set<char>): (k: nat)
    ensures k <= |s|
    ensures k < |s| ==> s[k] in stops
    ensures forall j :: 0 <= j < k ==> s[j] !in stops
  {
    if s == [] || s[0] in stops then 0 else 1 + Find(s[1..], stops)
  }

  /** `sep.join(parts)` for a one-character separator. */
  function Join(parts: seq<string>, sep: char): (s: string)
    ensures |parts| == 1 ==> s == parts[0]
    ensures |parts| >= 1 ==> parts[0] <= s
    ensures |parts| >= 2 ==> parts[0] + [sep] <= s
  {
    if |parts| == 0 then []
    else if |parts| == 1 then parts[0]
    else parts[0] + [sep] + Join(parts[1..], sep)
  }

  /** `s.split(sep)` for a one-character separator: never empty (an empty string
      gives one empty field), no field contains `sep`, and joining the fields
      back with `sep` gives `s` again. */
  function Split(s: string, sep: char): (parts: seq<string>)
    ensures |parts| >= 1
    ensures forall i :: 0 <= i < |parts| ==> sep !in parts[i]
    ensures Join(parts, sep) == s
    decreases |s|
  {
    if s == [] then [[]]
    else
      var rest := Split(s[1..], sep);
      if s[0] == sep then
        assert s == [sep] + s[1..];
        [[]] + rest
      else
        var parts := [[s[0]] + rest[0]] + rest[1..];
        assert |rest| > 1 ==> Join(rest, sep) == rest[0] + [sep] + Join(rest[1..], sep);
        assert parts[1..] == rest[1..];
        assert s == [s[0]] + s[1..];
        parts
  }

  /** A string without the separator is one field. */
  lemma {:induction false} SplitNoSep(p: string, sep: char)
    requires sep !in p
    ensures Split(p, sep) == [p]
    decreases |p|
  {
    if p != [] {
      assert sep !in p[1..];
      SplitNoSep(p[1..], sep);
      assert [p[0]] + p[1..] == p;
    }
  }

  /** Splitting after a separator-free field `p` and one separator gives `p`
      followed by the fields of the rest. */
  lemma {:induction false} SplitAfterField(p: string, sep: char, t: string)
    requires sep !in p
    ensures Split(p + [sep] + t, sep) == [p] + Split(t, sep)
    decreases |p|
  {
    var s := p + [sep] + t;
    if p == [] {
      assert s[1..] == t;
    } else {
      assert s[1..] == p[1..] + [sep] + t;
      assert sep !in p[1..];
      SplitAfterField(p[1..], sep, t);
      assert [p[0]] + p[1..] == p;
    }
  }

  /** `split` undoes `join` when no field contains the separator. */
  lemma {:induction false} SplitJoin(parts: seq<string>, sep: char)
    requires |parts| >= 1
    requires forall i :: 0 <= i < |parts| ==> sep !in parts[i]
    ensures Split(Join(parts, sep), sep) == parts
    decreases |parts|
  {
    if |parts| == 1 {
      SplitNoSep(parts[0], sep);
    } else {
      SplitJoin(parts[1..], sep);
      SplitAfterField(parts[0], sep, Join(parts[1..], sep));
      assert [parts[0]] + parts[1..] == parts;
    }
  }

  /** The first field ends at the first separator; when there is one, the
      remaining fields are the fields of what follows it. */
  lemma SplitAtFirst(s: string, sep: char)
    ensures Split(s, sep)[0] == s[..Find(s, {sep})]
    ensures Find(s, {sep}) < |s| ==>
              |Split(s, sep)| >= 2 && Split(s, sep)[1..] == Split(s[Find(s, {sep}) + 1..], sep)
  {
    var k := Find(s, {sep});
    assert sep !in s[..k];
    if k < |s| {
      assert s == s[..k] + [sep] + s[k + 1..];
      SplitAfterField(s[..k], sep, s[k + 1..]);
    } else {
      assert s[..k] == s;
      SplitNoSep(s, sep);
    }
  }

  // ---------------------------------------------------------------------
  // str.title() on ASCII

  predicate IsLetter(c: char) {
    'a' <= c <= 'z' || 'A' <= c <= 'Z'
  }

  function Upper(c: char): (u: char)
    ensures IsLetter(u) == IsLetter(c)
    ensures !('a' <= u <= 'z')
  {
    if 'a' <= c <= 'z' then (c as int - 32) as char else c
  }

  function Lower(c: char): (l: char)
    ensures IsLetter(l) == IsLetter(c)
    ensures !('A' <= l <= 'Z')
  {
    if 'A' <= c <= 'Z' then (c as int + 32) as char else c
  }

  /** One character of a title-cased string: a letter is upper-cased when it
      starts a word (nothing or a non-letter before it) and lower-cased
      otherwise; every other character is kept. */
  function TitleChar(c: char, afterLetter: bool): char {
    if !IsLetter(c) then c else if afterLetter then Lower(c) else Upper(c)
  }

  function TitleFrom(s: string, afterLetter: bool): (r: string)
    ensures |r| == |s|
    ensures forall i :: 0 <= i < |s| ==>
              r[i] == TitleChar(s[i], if i == 0 then afterLetter else IsLetter(s[i - 1]))
    decreases |s|
  {
    if s == [] then [] else [TitleChar(s[0], afterLetter)] + TitleFrom(s[1..], IsLetter(s[0]))
  }

  /** `str.title()`: same length, and each position is cased according to
      whether the character before it is a letter. */
  function Title(s: string): (r: string)
    ensures |r| == |s|
    ensures forall i :: 0 <= i < |s| ==> r[i] == TitleChar(s[i], i > 0 && IsLetter(s[i - 1]))
  {
    TitleFrom(s, false)
  }

  lemma TitleCharLetter(c: char, afterLetter: bool)
    ensures IsLetter(TitleChar(c, afterLetter)) == IsLetter(c)
    ensures TitleChar(TitleChar(c, afterLetter), afterLetter) == TitleChar(c, afterLetter)
  {
  }

  /** Title-casing a title-cased string changes nothing. */
  lemma TitleIdempotent(s: string)
    ensures Title(Title(s)) == Title(s)
  {
    var t := Title(s);
    forall i | 0 <= i < |s| ensures Title(t)[i] == t[i] {
      TitleCharLetter(s[i], i > 0 && IsLetter(s[i - 1]));
      if i > 0 {
        TitleCharLetter(s[i - 1], i > 1 && IsLetter(s[i - 2]));
      }
    }
  }

  /** Title-casing works word by word: a string is title-cased piecewise. */
  lemma TitleFromAppend(a: string, b: string, afterLetter: bool)
    ensures TitleFrom(a + b, afterLetter)
         == TitleFrom(a, afterLetter) + TitleFrom(b, if a == [] then afterLetter else IsLetter(a[|a| - 1]))
  {
    var next := if a == [] then afterLetter else IsLetter(a[|a| - 1]);
    var whole, pieces := TitleFrom(a + b, afterLetter), TitleFrom(a, afterLetter) + TitleFrom(b, next);
    forall i | 0 <= i < |a + b| ensures whole[i] == pieces[i] {
      var before := if i == 0 then afterLetter else IsLetter((a + b)[i - 1]);
      assert whole[i] == TitleChar((a + b)[i], before);
      if i < |a| {
        assert (a + b)[i] == a[i] && (i > 0 ==> (a + b)[i - 1] == a[i - 1]);
        assert pieces[i] == TitleFrom(a, afterLetter)[i];
      } else {
        var j := i - |a|;
        assert (a + b)[i] == b[j];
        assert before == if j == 0 then next else IsLetter(b[j - 1]) by {
          if j > 0 {
            assert (a + b)[i - 1] == b[j - 1];
          } else if i > 0 {
            assert (a + b)[i - 1] == a[|a| - 1];
          }
        }
        assert pieces[i] == TitleFrom(b, next)[j];
      }
    }
  }

  /** A letter after a space or a hyphen starts a new word:
      `"model s".title()` is `"Model S"` and `"e-tron".title()` is `"E-Tron"`. */
  lemma TitleWordStarts()
    ensures Title("model s") == "Model S"
    ensures Title("e-tron") == "E-Tron"
  {
  }

  /** `"CIVIC".title()` is `"Civic"`; a digit does not start a word, so
      `"1st".title()` is `"1St"`. */
  lemma TitleExamples()
    ensures Title("CIVIC") == "Civic"
    ensures Title("1st") == "1St"
  {
  }
}
