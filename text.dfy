/** The Python string operations the account finder relies on, over `seq<char>`. */
module Text {
  import opened Seqs

  /** Python's `needle in hay`: `needle` is a prefix of some suffix of `hay`. */
  predicate Contains(hay: string, needle: string)
    decreases |hay|
  {
    needle <= hay || (|hay| > 0 && Contains(hay[1..], needle))
  }

  /** `needle` occurs in `hay` starting at index `i`. */
  predicate OccursAt(hay: string, needle: string, i: int)
  {
    0 <= i && i + |needle| <= |hay| && hay[i..i + |needle|] == needle
  }

  /** `Contains` is substring search: it holds exactly when the needle occurs at some index. */
  lemma {:induction false} ContainsIffOccurs(hay: string, needle: string)
    ensures Contains(hay, needle) <==> exists i :: OccursAt(hay, needle, i)
    decreases |hay|
  {
    if exists i :: OccursAt(hay, needle, i) {
      var i :| OccursAt(hay, needle, i);
      if i > 0 {
        ContainsIffOccurs(hay[1..], needle);
        assert hay[1..][i - 1..i - 1 + |needle|] == hay[i..i + |needle|];
        assert OccursAt(hay[1..], needle, i - 1);
      }
    }
    if Contains(hay, needle) {
      if needle <= hay {
        assert OccursAt(hay, needle, 0);
      } else {
        ContainsIffOccurs(hay[1..], needle);
        var i :| OccursAt(hay[1..], needle, i);
        assert hay[1..][i..i + |needle|] == hay[i + 1..i + 1 + |needle|];
        assert OccursAt(hay, needle, i + 1);
      }
    }
  }

  /** A needle holding a character the text lacks does not occur in it. */
  lemma AbsentCharNotContained(hay: string, needle: string, c: char)
    requires c in needle && c !in hay
    ensures !Contains(hay, needle)
  {
    var k :| 0 <= k < |needle| && needle[k] == c;
    forall i | 0 <= i && i + |needle| <= |hay| ensures !OccursAt(hay, needle, i) {
      assert hay[i..i + |needle|][k] == hay[i + k];
      assert hay[i + k] in hay;
    }
    ContainsIffOccurs(hay, needle);
  }

  /** ASCII lower-casing of one character. */
  function LowerChar(c: char): char
  {
    if 'A' <= c <= 'Z' then (c as int + 32) as char else c
  }

  /** Python's `str.lower()`, restricted to ASCII letters. */
  function Lower(s: string): string
  {
    seq(|s|, i requires 0 <= i < |s| => LowerChar(s[i]))
  }

  /** A verbatim mention is also a case-insensitive one. */
  lemma ContainsLower(hay: string, needle: string)
    requires Contains(hay, needle)
    ensures Contains(Lower(hay), Lower(needle))
  {
    ContainsIffOccurs(hay, needle);
    var i :| OccursAt(hay, needle, i);
    assert Lower(hay)[i..i + |needle|] == Lower(needle);
    assert OccursAt(Lower(hay), Lower(needle), i);
    ContainsIffOccurs(Lower(hay), Lower(needle));
  }

  /** Python's `s.split(sep)` for a one-character separator: always at least one piece. */
  function Split(s: string, sep: char): (parts: seq<string>)
    ensures |parts| >= 1
    ensures forall p :: p in parts ==> sep !in p
    decreases |s|
  {
    if |s| == 0 then [""]
    else
      var rest := Split(s[1..], sep);
      if s[0] == sep then [""] + rest
      else [[s[0]] + rest[0]] + rest[1..]
  }

  /** Python's `sep.join(parts)`. */
  function Join(parts: seq<string>, sep: char): string
    requires |parts| >= 1
    decreases |parts|
  {
    if |parts| == 1 then parts[0] else parts[0] + [sep] + Join(parts[1..], sep)
  }

  /** Splitting loses nothing: joining the pieces gives back the text. */
  lemma {:induction false} JoinSplit(s: string, sep: char)
    ensures Join(Split(s, sep), sep) == s
    decreases |s|
  {
    if |s| > 0 {
      var rest := Split(s[1..], sep);
      JoinSplit(s[1..], sep);
      if s[0] == sep {
        assert Split(s, sep) == [""] + rest;
        assert ([""] + rest)[1..] == rest;
        assert s == [sep] + s[1..];
      } else {
        var parts := Split(s, sep);
        assert parts == [[s[0]] + rest[0]] + rest[1..];
        if |rest| == 1 {
          assert s == [s[0]] + rest[0];
        } else {
          assert parts[1..] == rest[1..];
          assert s == [s[0]] + (rest[0] + [sep] + Join(rest[1..], sep));
        }
      }
    }
  }

  /** A separator-free prefix is glued to the first piece of what follows it. */
  lemma {:induction false} SplitPrefix(p: string, t: string, sep: char)
    requires sep !in p
    ensures Split(p + t, sep) == [p + Split(t, sep)[0]] + Split(t, sep)[1..]
    decreases |p|
  {
    var st := Split(t, sep);
    if p == [] {
      assert p + t == t;
      assert p + st[0] == st[0];
      assert [st[0]] + st[1..] == st;
    } else {
      assert (p + t)[1..] == p[1..] + t;
      SplitPrefix(p[1..], t, sep);
      assert [p[0]] + (p[1..] + Split(t, sep)[0]) == p + Split(t, sep)[0];
    }
  }

  /** Joining pieces that are free of the separator and splitting again gives back the pieces. */
  lemma {:induction false} SplitJoin(parts: seq<string>, sep: char)
    requires |parts| >= 1
    requires forall p :: p in parts ==> sep !in p
    ensures Split(Join(parts, sep), sep) == parts
    decreases |parts|
  {
    if |parts| == 1 {
      SplitPrefix(parts[0], "", sep);
      assert parts[0] + "" == parts[0];
    } else {
      var tail := Join(parts[1..], sep);
      assert forall p :: p in parts[1..] ==> p in parts;
      SplitJoin(parts[1..], sep);
      assert parts[0] in parts;
      assert parts[0] + [sep] + tail == parts[0] + ([sep] + tail);
      SplitPrefix(parts[0], [sep] + tail, sep);
      assert ([sep] + tail)[0] == sep && ([sep] + tail)[1..] == tail;
      assert Split([sep] + tail, sep) == [""] + parts[1..];
      assert parts[0] + "" == parts[0];
      assert [parts[0]] + parts[1..] == parts;
    }
  }

  /** Python's `s.split(pat)[0]`: the text before the first occurrence of `pat`, or all of `s`. */
  function PrefixBefore(s: string, pat: string): (r: string)
    requires |pat| > 0
    ensures r <= s
    ensures forall i :: 0 <= i < |r| ==> !(pat <= s[i..])
    ensures r == s || pat <= s[|r|..]
    decreases |s|
  {
    if pat <= s || |s| == 0 then ""
    else
      var rest := PrefixBefore(s[1..], pat);
      assert forall i :: 1 <= i <= |s| ==> s[i..] == s[1..][i - 1..];
      [s[0]] + rest
  }

  /** The text before the first `pat` is everything up to a `pat` that no earlier one precedes. */
  lemma PrefixBeforeFirst(a: string, b: string, pat: string)
    requires |pat| > 0 && pat <= b
    requires forall i :: 0 <= i < |a| ==> !(pat <= (a + b)[i..])
    ensures PrefixBefore(a + b, pat) == a
  {
    var s := a + b;
    var r := PrefixBefore(s, pat);
    assert s[|a|..] == b;
    assert pat <= s[|a|..];
    assert |r| <= |a|;
    assert |r| < |s|;
    assert pat <= s[|r|..];
    assert |r| == |a|;
    assert r == s[..|r|] == a;
  }

  /** For a one-character separator, the text before it is everything up to its first occurrence. */
  lemma PrefixBeforeChar(a: string, b: string, c: char)
    requires c !in a && |b| > 0 && b[0] == c
    ensures PrefixBefore(a + b, [c]) == a
  {
    forall i | 0 <= i < |a| ensures !([c] <= (a + b)[i..]) {
      assert (a + b)[i..][0] == a[i];
      assert a[i] in a;
    }
    PrefixBeforeFirst(a, b, [c]);
  }

  /** A character that the separator contains cannot be the start of an earlier separator. */
  lemma PrefixBeforeFree(s: string, c: char)
    ensures c !in PrefixBefore(s, [c])
  {
    var r := PrefixBefore(s, [c]);
    forall i | 0 <= i < |r| ensures r[i] != c {
      assert !([c] <= s[i..]);
      assert s[i..][0] == s[i] == r[i];
    }
  }

  /** The placeholder that a site's check URL template carries for the username. */
  const Placeholder: string := "{account}"

  /** Python's `template.format(account=name)` for templates whose only field is `{account}`. */
  function Format(template: string, account: string): string
    decreases |template|
  {
    if Placeholder <= template then account + Format(template[|Placeholder|..], account)
    else if |template| == 0 then ""
    else [template[0]] + Format(template[1..], account)
  }

  /** Text without an opening brace goes into the URL unchanged. */
  lemma {:induction false} FormatPlain(p: string, t: string, account: string)
    requires '{' !in p
    ensures Format(p + t, account) == p + Format(t, account)
    decreases |p|
  {
    if p == [] {
      assert p + t == t;
    } else {
      var s := p + t;
      assert p[0] in p;
      assert s[0] == p[0] && s[0] != Placeholder[0];
      assert |s| > 0 && !(Placeholder <= s);
      assert Format(s, account) == [s[0]] + Format(s[1..], account);
      assert s[1..] == p[1..] + t;
      FormatPlain(p[1..], t, account);
      assert p + Format(t, account) == [p[0]] + (p[1..] + Format(t, account));
    }
  }

  /** A template with one placeholder and no other braces yields its text with the name substituted. */
  lemma FormatOne(p: string, q: string, account: string)
    requires '{' !in p && '{' !in q
    requires '}' !in p && '}' !in q
    ensures Format(p + Placeholder + q, account) == p + account + q
  {
    assert p + Placeholder + q == p + (Placeholder + q);
    FormatPlain(p, Placeholder + q, account);
    assert Placeholder <= Placeholder + q;
    assert (Placeholder + q)[|Placeholder|..] == q;
    assert Format(Placeholder + q, account) == account + Format(q, account);
    FormatPlain(q, "", account);
    assert q + "" == q;
  }

  /** Python's `s.replace(c, rep)` for a one-character pattern. */
  function ReplaceChar(s: string, c: char, rep: string): (r: string)
    ensures c !in rep ==> c !in r
    ensures c !in s ==> r == s
    ensures |rep| == 1 ==>
              |r| == |s| && forall i :: 0 <= i < |s| ==> r[i] == (if s[i] == c then rep[0] else s[i])
    ensures rep == "" ==> r == Filter(s, (x: char) => x != c)
    decreases |s|
  {
    if |s| == 0 then ""
    else (if s[0] == c then rep else [s[0]]) + ReplaceChar(s[1..], c, rep)
  }
}
