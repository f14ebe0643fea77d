/** The string helpers of the report generator: the value placeholder used by every
    field, the address join, and the two helpers that build the saved file's name. */
module Text {

  /* ---------- characters ---------- */

  /** The characters that JavaScript's String.prototype.trim removes
      (the WhiteSpace and LineTerminator productions of ECMAScript). */
  predicate IsSpace(c: char)
  {
    c == ' ' || c == '\t' || c == '\n' || c == '\r' || c == '\U{000B}' || c == '\U{000C}'
    || c == '\U{00A0}' || c == '\U{1680}' || ('\U{2000}' <= c <= '\U{200A}')
    || c == '\U{2028}' || c == '\U{2029}' || c == '\U{202F}' || c == '\U{205F}'
    || c == '\U{3000}' || c == '\U{FEFF}'
  }

  /** A lower-case letter that `toUpperCase` maps one-to-one, 32 code points down:
      ASCII a-z and the Latin-1 letters U+00E0..U+00FE except the division sign. */
  predicate IsLowerLetter(c: char)
  {
    ('a' <= c <= 'z') || ('\U{00E0}' <= c <= '\U{00FE}' && c != '\U{00F7}')
  }

  function UpperChar(c: char): char
  {
    if IsLowerLetter(c) then (c as int - 32) as char else c
  }

  /** `toUpperCase`, character by character. */
  function Upper(s: string): (r: string)
    ensures |r| == |s|
    ensures forall i :: 0 <= i < |s| ==> r[i] == UpperChar(s[i])
    ensures IsUpperCase(r)
    ensures IsUpperCase(s) ==> r == s
  {
    seq(|s|, i requires 0 <= i < |s| => UpperChar(s[i]))
  }

  predicate IsUpperCase(s: string)
  {
    forall i :: 0 <= i < |s| ==> !IsLowerLetter(s[i])
  }

  /** Upper-casing twice is upper-casing once, and its result has no lower-case letter. */
  lemma UpperIdempotent(s: string)
    ensures IsUpperCase(Upper(s))
    ensures Upper(Upper(s)) == Upper(s)
  {
  }

  /** True of the empty string and of a string that `trim()` reduces to ''. */
  predicate IsBlank(s: string)
  {
    forall i :: 0 <= i < |s| ==> IsSpace(s[i])
  }

  /* ---------- formatValue ---------- */

  /** "NÃO INFORMADO" */
  const NotInformed: string := "N\U{00C3}O INFORMADO"

  lemma NotInformedShape()
    ensures !IsBlank(NotInformed) && IsUpperCase(NotInformed)
  {
    assert NotInformed[0] == 'N';
    forall i | 0 <= i < |NotInformed| ensures !IsLowerLetter(NotInformed[i]) {
      assert i == 0 || i == 1 || i == 2 || i == 3 || i == 4 || i == 5 || i == 6
        || i == 7 || i == 8 || i == 9 || i == 10 || i == 11 || i == 12;
    }
  }

  /** The value shown for a field: the placeholder for an absent or blank value,
      otherwise the value in upper case (not trimmed). */
  function FormatValue(value: string): (r: string)
    ensures !IsBlank(r) && IsUpperCase(r)
    ensures IsBlank(value) ==> r == NotInformed
    ensures !IsBlank(value) ==> r == Upper(value)
  {
    if IsBlank(value) then
      NotInformedShape();
      NotInformed
    else
      UpperIdempotent(value);
      Upper(value)
  }

  /** Formatting an already formatted value changes nothing. */
  lemma FormatValueIdempotent(value: string)
    ensures FormatValue(FormatValue(value)) == FormatValue(value)
  {
    var r := FormatValue(value);
    assert !IsBlank(r);
    assert Upper(r) == r by {
      forall i | 0 <= i < |r| ensures Upper(r)[i] == r[i] {
      }
    }
  }

  /* ---------- joining ---------- */

  /** The combined length of the strings. */
  function TotalLength(parts: seq<string>): nat
  {
    if parts == [] then 0 else |parts[0]| + TotalLength(parts[1..])
  }

  /** `Array.prototype.join(sep)` on an array of strings: the parts in order, starting
      with the first, one separator between each two. */
  function JoinWith(parts: seq<string>, sep: string): (r: string)
    ensures parts == [] ==> r == ""
    ensures parts != [] ==> |r| == TotalLength(parts) + (|parts| - 1) * |sep|
    ensures parts != [] ==> r[..|parts[0]|] == parts[0]
  {
    if |parts| == 0 then ""
    else if |parts| == 1 then parts[0]
    else parts[0] + sep + JoinWith(parts[1..], sep)
  }

  /** The non-empty strings of `parts`, in order. */
  function Present(parts: seq<string>): (r: seq<string>)
    ensures |r| <= |parts|
    ensures forall i :: 0 <= i < |r| ==> r[i] != ""
  {
    if parts == [] then []
    else if parts[0] != "" then [parts[0]] + Present(parts[1..])
    else Present(parts[1..])
  }

  /** Joining at least one non-empty string never gives the empty string. */
  lemma {:induction false} JoinNonEmpty(parts: seq<string>, sep: string)
    requires parts != [] && forall i :: 0 <= i < |parts| ==> parts[i] != ""
    ensures JoinWith(parts, sep) != ""
    ensures |JoinWith(parts, sep)| >= |parts[0]|
    ensures JoinWith(parts, sep)[..|parts[0]|] == parts[0]
  {
    if |parts| > 1 {
      var tail := JoinWith(parts[1..], sep);
      assert JoinWith(parts, sep) == parts[0] + sep + tail;
      assert (parts[0] + sep + tail)[..|parts[0]|] == parts[0];
    }
  }

  lemma PresentOfThree(a: string, b: string, c: string)
    ensures Present([a, b, c]) == (if a != "" then [a] else [])
                                  + (if b != "" then [b] else [])
                                  + (if c != "" then [c] else [])
  {
    assert [a, b, c][1..] == [b, c];
    assert [b, c][1..] == [c];
    assert [c][1..] == [];
    assert Present([c]) == (if c != "" then [c] else []) + Present([]);
    assert Present([b, c]) == (if b != "" then [b] else []) + Present([c]);
  }

  /** The full address: the present parts among street, neighbourhood and postal code,
      in that order, separated by ", "; empty when all three are absent. */
  function FullAddress(endereco: string, bairro: string, cep: string): (r: string)
    ensures r == JoinWith(Present([endereco, bairro, cep]), ", ")
    ensures r == "" <==> endereco == "" && bairro == "" && cep == ""
    ensures endereco != "" ==> |r| >= |endereco| && r[..|endereco|] == endereco
  {
    if endereco != "" || bairro != "" || cep != "" then
      var parts := (if endereco != "" then [endereco] else [])
                   + (if bairro != "" then [bairro] else [])
                   + (if cep != "" then [cep] else []);
      PresentOfThree(endereco, bairro, cep);
      JoinNonEmpty(parts, ", ");
      JoinWith(parts, ", ")
    else
      PresentOfThree(endereco, bairro, cep);
      ""
  }

  /* ---------- splitting ---------- */

  /** `String.prototype.split(sep)` for a one-character separator. */
  function Split(s: string, sep: char): (parts: seq<string>)
    ensures |parts| >= 1
    ensures forall i :: 0 <= i < |parts| ==> sep !in parts[i]
  {
    if s == [] then [""]
    else
      var rest := Split(s[1..], sep);
      if s[0] == sep then [""] + rest
      else [[s[0]] + rest[0]] + rest[1..]
  }

  /** Joining the pieces of a split with the separator gives back the string. */
  lemma {:induction false} JoinSplit(s: string, sep: char)
    ensures JoinWith(Split(s, sep), [sep]) == s
  {
    if s != [] {
      var rest := Split(s[1..], sep);
      JoinSplit(s[1..], sep);
      if s[0] == sep {
        assert Split(s, sep)[1..] == rest;
      } else {
        var parts := Split(s, sep);
        if |rest| == 1 {
          assert parts == [[s[0]] + rest[0]];
        } else {
          assert parts[1..] == rest[1..];
          assert JoinWith(rest, [sep]) == rest[0] + [sep] + JoinWith(rest[1..], [sep]);
        }
      }
    }
  }

  /** Splitting a join of separator-free pieces gives back the pieces. */
  lemma {:induction false} SplitJoin(parts: seq<string>, sep: char)
    requires |parts| >= 1
    requires forall i :: 0 <= i < |parts| ==> sep !in parts[i]
    ensures Split(JoinWith(parts, [sep]), sep) == parts
  {
    if |parts| == 1 {
      SplitFree(parts[0], sep);
    } else {
      SplitJoin(parts[1..], sep);
      var tail := JoinWith(parts[1..], [sep]);
      SplitPrefixed(parts[0], tail, sep);
      assert JoinWith(parts, [sep]) == parts[0] + [sep] + tail;
      ConcatAssoc(parts[0], [sep], tail);
      assert [parts[0]] + parts[1..] == parts;
    }
  }

  /** A string without the separator splits into itself alone. */
  lemma {:induction false} SplitFree(s: string, sep: char)
    requires sep !in s
    ensures Split(s, sep) == [s]
  {
    if s != [] {
      SplitFree(s[1..], sep);
      assert [s[0]] + s[1..] == s;
    }
  }

  /** A separator-free prefix followed by the separator becomes the first piece. */
  lemma {:induction false} SplitPrefixed(a: string, t: string, sep: char)
    requires sep !in a
    ensures Split(a + ([sep] + t), sep) == [a] + Split(t, sep)
  {
    if a == [] {
      assert a + ([sep] + t) == [sep] + t;
      assert ([sep] + t)[1..] == t;
    } else {
      SplitPrefixed(a[1..], t, sep);
      assert (a + ([sep] + t))[1..] == a[1..] + ([sep] + t);
      assert [a[0]] + a[1..] == a;
    }
  }

  /* ---------- file name ---------- */

  predicate IsDigit(c: char) { '0' <= c <= '9' }

  predicate IsAlnum(c: char) { ('A' <= c <= 'Z') || IsDigit(c) }

  /** The characters a slug may hold: A-Z, 0-9 and '-'. */
  predicate IsSlugChar(c: char) { IsAlnum(c) || c == '-' }

  /** `replace(/[^0-9]/g, '')`: the digits of `s`, in order. */
  function Digits(s: string): (r: string)
    ensures |r| <= |s|
    ensures forall i :: 0 <= i < |r| ==> IsDigit(r[i])
    ensures (forall i :: 0 <= i < |s| ==> IsDigit(s[i])) ==> r == s
    ensures (forall i :: 0 <= i < |s| ==> !IsDigit(s[i])) ==> r == []
  {
    if s == [] then []
    else (if IsDigit(s[0]) then [s[0]] else []) + Digits(s[1..])
  }

  /** Keeping the digits of two texts one after the other keeps the digits of each, in
      order: so every digit of a text is kept, and nothing is reordered. */
  lemma {:induction false} DigitsConcat(a: string, b: string)
    ensures Digits(a + b) == Digits(a) + Digits(b)
  {
    if a == [] {
      assert a + b == b;
    } else {
      DigitsConcat(a[1..], b);
      assert (a + b)[0] == a[0] && (a + b)[1..] == a[1..] + b;
      var head := if IsDigit(a[0]) then [a[0]] else [];
      ConcatAssoc(head, Digits(a[1..]), Digits(b));
    }
  }

  /** The characters of `s` that are A-Z or 0-9, in order. */
  function Alnums(s: string): string
  {
    if s == [] then []
    else (if IsAlnum(s[0]) then [s[0]] else []) + Alnums(s[1..])
  }

  lemma {:induction false} AlnumsConcat(a: string, b: string)
    ensures Alnums(a + b) == Alnums(a) + Alnums(b)
  {
    if a == [] {
      assert a + b == b;
    } else {
      AlnumsConcat(a[1..], b);
      var head := if IsAlnum(a[0]) then [a[0]] else [];
      assert (a + b)[0] == a[0];
      assert (a + b)[1..] == a[1..] + b;
      assert Alnums(a + b) == head + (Alnums(a[1..]) + Alnums(b));
      assert head + (Alnums(a[1..]) + Alnums(b)) == (head + Alnums(a[1..])) + Alnums(b);
    }
  }

  /** A combining diacritical mark, U+0300..U+036F. */
  predicate IsMark(c: char) { '\U{0300}' <= c <= '\U{036F}' }

  /** `replace(/[\u0300-\u036f]/g, '')`: drops every combining mark, keeping the rest in order. */
  function StripMarks(s: string): (r: string)
    ensures forall i :: 0 <= i < |r| ==> !IsMark(r[i])
    ensures (forall i :: 0 <= i < |s| ==> !IsMark(s[i])) ==> r == s
    ensures (forall i :: 0 <= i < |s| ==> IsMark(s[i])) ==> r == []
  {
    if s == [] then []
    else (if IsMark(s[0]) then [] else [s[0]]) + StripMarks(s[1..])
  }

  /** Mark removal works piece by piece: together with the single-character cases of
      StripMarks, every other character is kept, in order. */
  lemma {:induction false} StripMarksConcat(a: string, b: string)
    ensures StripMarks(a + b) == StripMarks(a) + StripMarks(b)
  {
    if a == [] {
      assert a + b == b;
    } else {
      StripMarksConcat(a[1..], b);
      assert (a + b)[0] == a[0] && (a + b)[1..] == a[1..] + b;
      var head := if IsMark(a[0]) then [] else [a[0]];
      ConcatAssoc(head, StripMarks(a[1..]), StripMarks(b));
    }
  }

  /** Drops the leading characters that are not A-Z or 0-9. */
  function SkipRun(s: string): (r: string)
    ensures |r| <= |s|
    ensures r == [] || IsAlnum(r[0])
    ensures Alnums(r) == Alnums(s)
    ensures s != [] && IsAlnum(s[0]) ==> r == s
  {
    if s != [] && !IsAlnum(s[0]) then SkipRun(s[1..]) else s
  }

  /** `replace(/[^A-Z0-9]+/g, '-')`: every maximal run of other characters becomes one '-'. */
  function Collapse(s: string): (r: string)
    decreases |s|
    ensures forall i :: 0 <= i < |r| ==> IsSlugChar(r[i])
    ensures forall i :: 0 <= i < |r| - 1 ==> !(r[i] == '-' && r[i + 1] == '-')
    ensures Alnums(r) == Alnums(s)
    ensures s != [] && IsAlnum(s[0]) ==> r != [] && r[0] == s[0]
  {
    if s == [] then []
    else if IsAlnum(s[0]) then [s[0]] + Collapse(s[1..])
    else "-" + Collapse(SkipRun(s[1..]))
  }

  /** `replace(/^-+/, '')`. */
  function TrimStart(s: string): (r: string)
    ensures |r| <= |s| && r == s[|s| - |r|..]
    ensures r == [] || r[0] != '-'
    ensures forall i :: 0 <= i < |s| - |r| ==> s[i] == '-'
  {
    if s != [] && s[0] == '-' then
      var r := TrimStart(s[1..]);
      assert s[1..][|s| - 1 - |r|..] == s[|s| - |r|..];
      r
    else s
  }

  /** Dropping leading dashes keeps every letter and digit. */
  lemma {:induction false} TrimStartAlnums(s: string)
    ensures Alnums(TrimStart(s)) == Alnums(s)
  {
    if s != [] && s[0] == '-' {
      TrimStartAlnums(s[1..]);
      assert Alnums(s) == [] + Alnums(s[1..]);
    }
  }

  /** `replace(/-+$/, '')`. */
  function TrimEnd(s: string): (r: string)
    ensures |r| <= |s| && r == s[..|r|]
    ensures r == [] || r[|r| - 1] != '-'
    ensures forall i :: |r| <= i < |s| ==> s[i] == '-'
  {
    if s != [] && s[|s| - 1] == '-' then TrimEnd(s[..|s| - 1]) else s
  }

  /** Dropping trailing dashes keeps every letter and digit. */
  lemma {:induction false} TrimEndAlnums(s: string)
    ensures Alnums(TrimEnd(s)) == Alnums(s)
  {
    if s != [] && s[|s| - 1] == '-' {
      var t := s[..|s| - 1];
      TrimEndAlnums(t);
      AlnumsConcat(t, [s[|s| - 1]]);
      assert t + [s[|s| - 1]] == s;
    }
  }

  /** Slug characters only, and no doubled dash. */
  predicate IsSlug(s: string)
  {
    && (forall i :: 0 <= i < |s| ==> IsSlugChar(s[i]))
    && (forall i :: 0 <= i < |s| - 1 ==> !(s[i] == '-' && s[i + 1] == '-'))
  }

  /** Any slice of a slug is a slug. */
  lemma SliceOfSlug(s: string, lo: nat, hi: nat)
    requires lo <= hi <= |s| && IsSlug(s)
    ensures IsSlug(s[lo..hi])
  {
    forall i | 0 <= i < hi - lo ensures s[lo..hi][i] == s[lo + i] {
    }
  }

  /** The file-name slug of a text, after Unicode decomposition: combining marks removed,
      upper-cased, every run of characters other than A-Z and 0-9 turned into one '-',
      and the dashes at both ends dropped. */
  function CleanText(s: string): (r: string)
    ensures IsSlug(r) && (r == [] || (r[0] != '-' && r[|r| - 1] != '-'))
    ensures Alnums(r) == Alnums(Upper(StripMarks(s)))
  {
    var c := Collapse(Upper(StripMarks(s)));
    TrimmedSlug(c);
    TrimStartAlnums(c);
    TrimEndAlnums(TrimStart(c));
    TrimEnd(TrimStart(c))
  }

  /** Trimming the dashes at both ends of a collapsed text leaves a slug that neither
      starts nor ends with a dash. */
  lemma TrimmedSlug(c: string)
    requires IsSlug(c)
    ensures var r := TrimEnd(TrimStart(c));
      IsSlug(r) && (r == [] || (r[0] != '-' && r[|r| - 1] != '-'))
  {
    var t := TrimStart(c);
    SliceOfSlug(c, |c| - |t|, |c|);
    var r := TrimEnd(t);
    SliceOfSlug(t, 0, |r|);
    assert r != [] ==> r[0] == t[0];
  }

  /** A slug (slug characters, no doubled dash) is left alone by Collapse. */
  lemma {:induction false} CollapseSlug(s: string)
    requires IsSlug(s)
    ensures Collapse(s) == s
  {
    if s != [] {
      CollapseSlug(s[1..]);
      if !IsAlnum(s[0]) {
        assert SkipRun(s[1..]) == s[1..];
      }
      assert [s[0]] + s[1..] == s;
    }
  }

  /** A word of a slug: one or more of A-Z and 0-9. */
  predicate IsWord(w: string)
  {
    w != [] && forall i :: 0 <= i < |w| ==> IsAlnum(w[i])
  }

  /** Text around and between words: characters that are neither A-Z nor 0-9, such as a
      space, a comma, a slash or an apostrophe (possibly none). */
  predicate IsRun(p: string)
  {
    forall i :: 0 <= i < |p| ==> !IsAlnum(p[i])
  }

  /** Words with a run of other characters between each two: `seps[k]` stands between
      `ws[k]` and `ws[k + 1]`. */
  function Interleave(ws: seq<string>, seps: seq<string>): (r: string)
    requires ws != [] && |seps| == |ws| - 1
    decreases |ws|
    ensures |ws[0]| <= |r| && r[..|ws[0]|] == ws[0]
  {
    if |ws| == 1 then ws[0] else ws[0] + seps[0] + Interleave(ws[1..], seps[1..])
  }

  /** What Collapse makes of a run: nothing when it is empty, one dash otherwise. */
  function Dash(p: string): string
  {
    if p == [] then "" else "-"
  }

  /** A leading word passes through Collapse unchanged. */
  lemma {:induction false} CollapseWordPrefix(w: string, t: string)
    requires forall i :: 0 <= i < |w| ==> IsAlnum(w[i])
    ensures Collapse(w + t) == w + Collapse(t)
  {
    if w != [] {
      assert (w + t)[0] == w[0] && (w + t)[1..] == w[1..] + t;
      assert Collapse(w + t) == [w[0]] + Collapse(w[1..] + t);
      CollapseWordPrefix(w[1..], t);
      ConcatAssoc([w[0]], w[1..], Collapse(t));
      assert [w[0]] + w[1..] == w;
    } else {
      assert w + t == t;
    }
  }

  /** A run of other characters before a word is skipped whole. */
  lemma {:induction false} SkipSeparator(p: string, t: string)
    requires IsRun(p)
    requires t == [] || IsAlnum(t[0])
    ensures SkipRun(p + t) == t
  {
    if p == [] {
      assert p + t == t;
    } else {
      assert (p + t)[0] == p[0] && (p + t)[1..] == p[1..] + t;
      SkipSeparator(p[1..], t);
    }
  }

  /** A run before a word, or at the end, becomes exactly one dash when it is not empty. */
  lemma CollapseRunPrefix(p: string, t: string)
    requires IsRun(p)
    requires t == [] || IsAlnum(t[0])
    ensures Collapse(p + t) == Dash(p) + Collapse(t)
  {
    if p == [] {
      assert p + t == t;
    } else {
      assert (p + t)[0] == p[0] && (p + t)[1..] == p[1..] + t;
      SkipSeparator(p[1..], t);
    }
  }

  /** Words with runs between them, followed by a run, collapse to the words joined by
      single dashes, followed by what the final run becomes. */
  lemma {:induction false} CollapseInterleave(ws: seq<string>, seps: seq<string>, trail: string)
    requires ws != [] && |seps| == |ws| - 1
    requires forall i :: 0 <= i < |ws| ==> IsWord(ws[i])
    requires forall k :: 0 <= k < |seps| ==> seps[k] != [] && IsRun(seps[k])
    requires IsRun(trail)
    ensures Collapse(Interleave(ws, seps) + trail) == JoinWith(ws, "-") + Dash(trail)
  {
    if |ws| == 1 {
      CollapseRunPrefix(trail, []);
      assert trail + [] == trail;
      CollapseWordPrefix(ws[0], trail);
    } else {
      var tail := Interleave(ws[1..], seps[1..]);
      var rest := tail + trail;
      assert rest[0] == tail[0] == ws[1][0];
      CollapseInterleave(ws[1..], seps[1..], trail);
      // Interleave(ws, seps) + trail == ws[0] + (seps[0] + rest)
      ConcatAssoc(ws[0] + seps[0], tail, trail);
      ConcatAssoc(ws[0], seps[0], rest);
      CollapseWordPrefix(ws[0], seps[0] + rest);
      CollapseRunPrefix(seps[0], rest);
      // ws[0] + ("-" + (JoinWith(ws[1..], "-") + Dash(trail)))
      ConcatAssoc("-", JoinWith(ws[1..], "-"), Dash(trail));
      ConcatAssoc(ws[0], "-" + JoinWith(ws[1..], "-"), Dash(trail));
      ConcatAssoc(ws[0], "-", JoinWith(ws[1..], "-"));
    }
  }

  /** `replace(/[^A-Z0-9]+/g, '-')` on any text made of words and runs: each non-empty
      run, between words or at either end, becomes one dash. */
  lemma CollapseText(lead: string, ws: seq<string>, seps: seq<string>, trail: string)
    requires ws != [] && |seps| == |ws| - 1
    requires forall i :: 0 <= i < |ws| ==> IsWord(ws[i])
    requires forall k :: 0 <= k < |seps| ==> seps[k] != [] && IsRun(seps[k])
    requires IsRun(lead) && IsRun(trail)
    ensures Collapse(lead + Interleave(ws, seps) + trail)
         == Dash(lead) + JoinWith(ws, "-") + Dash(trail)
  {
    var i := Interleave(ws, seps);
    var t := i + trail;
    assert t[0] == i[0] == ws[0][0];
    ConcatAssoc(lead, i, trail);
    CollapseRunPrefix(lead, t);
    CollapseInterleave(ws, seps, trail);
    ConcatAssoc(Dash(lead), JoinWith(ws, "-"), Dash(trail));
  }

  /** Text with no letter or digit, once upper-cased and without marks, has the empty
      slug: "---", " / " and "" all give "". */
  lemma CleanTextNoWords(s: string)
    requires IsRun(Upper(StripMarks(s)))
    ensures CleanText(s) == ""
  {
    var u := Upper(StripMarks(s));
    CollapseRunPrefix(u, []);
    assert u + [] == u;
    if u != [] {
      assert TrimStart("-") == TrimStart("-"[1..]);
    }
  }

  /** Joining non-empty pieces ends with the last piece's last character. */
  lemma {:induction false} JoinLast(ws: seq<string>, sep: string)
    requires ws != [] && forall i :: 0 <= i < |ws| ==> ws[i] != []
    ensures var j := JoinWith(ws, sep); j != [] && j[|j| - 1] == ws[|ws| - 1][|ws[|ws| - 1]| - 1]
  {
    if |ws| > 1 {
      JoinLast(ws[1..], sep);
    }
  }

  /** The slug of any text whose upper-cased, mark-free form is words with runs of other
      characters between them and around them is the words joined by single dashes, and it
      splits at the dashes back into the words: "São José - PR" with its accents as
      combining marks, "  Joao D'Avila " and "SAO / PAULO" give "SAO-JOSE-PR",
      "JOAO-D-AVILA" and "SAO-PAULO". */
  lemma CleanTextWords(s: string, lead: string, ws: seq<string>, seps: seq<string>, trail: string)
    requires ws != [] && |seps| == |ws| - 1
    requires forall i :: 0 <= i < |ws| ==> IsWord(ws[i])
    requires forall k :: 0 <= k < |seps| ==> seps[k] != [] && IsRun(seps[k])
    requires IsRun(lead) && IsRun(trail)
    requires Upper(StripMarks(s)) == lead + Interleave(ws, seps) + trail
    ensures CleanText(s) == JoinWith(ws, "-")
    ensures Split(CleanText(s), '-') == ws
  {
    CollapseText(lead, ws, seps, trail);
    var j := JoinWith(ws, "-");
    JoinNonEmpty(ws, "-");
    JoinLast(ws, "-");
    TrimDashes(Dash(lead), j, Dash(trail));
    SplitJoin(ws, '-');
  }

  /** A text that does not start with a dash loses exactly the dash put before it. */
  lemma TrimLeadingDash(a: string, x: string)
    requires a == "" || a == "-"
    requires x != [] && x[0] != '-'
    ensures TrimStart(a + x) == x
  {
    if a == "-" {
      assert (a + x)[1..] == x;
    } else {
      assert a + x == x;
    }
  }

  /** A text that does not end with a dash loses exactly the dash put after it. */
  lemma TrimTrailingDash(x: string, b: string)
    requires b == "" || b == "-"
    requires x != [] && x[|x| - 1] != '-'
    ensures TrimEnd(x + b) == x
  {
    if b == "-" {
      assert (x + b)[..|x + b| - 1] == x;
    } else {
      assert x + b == x;
    }
  }

  /** A text that neither starts nor ends with a dash loses exactly the dashes put around it. */
  lemma TrimDashes(a: string, j: string, b: string)
    requires a == "" || a == "-"
    requires b == "" || b == "-"
    requires j != [] && j[0] != '-' && j[|j| - 1] != '-'
    ensures TrimEnd(TrimStart(a + j + b)) == j
  {
    assert a + j + b == a + (j + b);
    TrimLeadingDash(a, j + b);
    TrimTrailingDash(j, b);
  }

  /** A file-name slug is its own slug. */
  lemma CleanTextIdempotent(s: string)
    ensures CleanText(CleanText(s)) == CleanText(s)
  {
    var r := CleanText(s);
    SlugUnchangedByCase(r);
    CollapseSlug(r);
    assert TrimStart(r) == r;
    assert TrimEnd(r) == r;
  }

  /** Mark removal and upper-casing leave a string of slug characters alone. */
  lemma SlugUnchangedByCase(r: string)
    requires IsSlug(r)
    ensures StripMarks(r) == r && Upper(r) == r
  {
    assert forall i :: 0 <= i < |r| ==> !IsMark(r[i]);
    assert forall i :: 0 <= i < |r| ==> Upper(r)[i] == r[i];
  }

  /** `formatDateForFilename`: "YYYY-MM-DD" becomes "DDMMYYYY" whenever the text has exactly
      three '-'-separated pieces; any other text keeps only its digits. */
  function FormatDateForFilename(date: string): (r: string)
    ensures |Split(date, '-')| == 3 ==>
      var p := Split(date, '-'); r == p[2] + p[1] + p[0]
    ensures |Split(date, '-')| != 3 ==> r == Digits(date) && forall i :: 0 <= i < |r| ==> IsDigit(r[i])
  {
    var p := Split(date, '-');
    if |p| == 3 then p[2] + p[1] + p[0] else Digits(date)
  }

  /** An ISO date written year-month-day comes out day, month, year. */
  lemma DateReordered(year: string, month: string, day: string)
    requires '-' !in year && '-' !in month && '-' !in day
    ensures FormatDateForFilename(year + "-" + month + "-" + day) == day + month + year
  {
    SplitJoin([year, month, day], '-');
    assert JoinWith([year, month, day], "-") == year + "-" + month + "-" + day by {
      assert [year, month, day][1..] == [month, day];
      assert [month, day][1..] == [day];
      assert JoinWith([day], "-") == day;
      assert JoinWith([month, day], "-") == month + "-" + day;
    }
  }

  /** The placeholder used in the file name when the requester is absent. */
  const NoRequester: string := "NAO-INFORMADO"

  /** Three separator-free pieces joined by the separator split back into those pieces. */
  lemma SplitThree(a: string, b: string, c: string, sep: char)
    requires sep !in a && sep !in b && sep !in c
    ensures Split(a + [sep] + b + [sep] + c, sep) == [a, b, c]
  {
    var parts := [a, b, c];
    assert parts[1..] == [b, c] && parts[1..][1..] == [c];
    assert JoinWith(parts[1..], [sep]) == b + [sep] + c;
    assert JoinWith(parts, [sep]) == a + [sep] + (b + [sep] + c);
    assert a + [sep] + (b + [sep] + c) == a + [sep] + b + [sep] + c;
    SplitJoin(parts, sep);
  }

  /** The saved file's name: municipality slug, requester slug and date, joined by '_',
      with the ".pdf" extension. */
  function ReportFileName(municipio: string, requerente: string, date: string): (r: string)
    ensures |r| >= 6 && r[|r| - 4..] == ".pdf"
  {
    var who := if requerente == "" then NoRequester else requerente;
    var name := CleanText(municipio) + "_" + CleanText(who) + "_" + FormatDateForFilename(date);
    name + ".pdf"
  }

  /** A character absent from a text is absent from every piece of its split. */
  lemma {:induction false} SplitAvoids(s: string, sep: char, c: char)
    requires c !in s
    ensures forall i :: 0 <= i < |Split(s, sep)| ==> c !in Split(s, sep)[i]
  {
    if s != [] {
      SplitAvoids(s[1..], sep, c);
    }
  }

  /** A date without '_' gives a date part without '_'. */
  lemma DatePartAvoids(date: string)
    requires '_' !in date
    ensures '_' !in FormatDateForFilename(date)
  {
    var p := Split(date, '-');
    SplitAvoids(date, '-', '_');
    if |p| == 3 {
      assert '_' !in p[2] && '_' !in p[1] && '_' !in p[0];
    }
  }

  /** When the date has no '_', the file name splits at '_' back into the municipality
      slug, the requester slug (or the placeholder's) and the date part with its
      extension. */
  lemma FileNameParts(municipio: string, requerente: string, date: string)
    requires '_' !in date
    ensures
      var who := if requerente == "" then NoRequester else requerente;
      Split(ReportFileName(municipio, requerente, date), '_') ==
        [CleanText(municipio), CleanText(who), FormatDateForFilename(date) + ".pdf"]
  {
    var who := if requerente == "" then NoRequester else requerente;
    DatePartAvoids(date);
    NamePieces(CleanText(municipio), CleanText(who), FormatDateForFilename(date));
  }

  /** Two slugs and a part without '_', joined by '_' and given the extension, split at
      '_' back into the three. */
  lemma NamePieces(m: string, w: string, d: string)
    requires IsSlug(m) && IsSlug(w) && '_' !in d
    ensures Split(m + "_" + w + "_" + d + ".pdf", '_') == [m, w, d + ".pdf"]
  {
    assert '_' !in d + ".pdf";
    SlugAvoids(m, '_');
    SlugAvoids(w, '_');
    ConcatAssoc(m + "_" + w + "_", d, ".pdf");
    SplitThree(m, w, d + ".pdf", '_');
  }

  lemma ConcatAssoc<T>(a: seq<T>, b: seq<T>, c: seq<T>)
    ensures a + b + c == a + (b + c)
  {
  }

  /** A slug holds no character other than A-Z, 0-9 and '-'. */
  lemma SlugAvoids(s: string, c: char)
    requires IsSlug(s) && !IsSlugChar(c)
    ensures c !in s
  {
  }

  /** The number a string of decimal digits denotes. */
  function DecimalValue(s: string): nat
  {
    if s == [] then 0
    else
      var d := s[|s| - 1] as int - '0' as int;
      DecimalValue(s[..|s| - 1]) * 10 + (if 0 <= d then d else 0)
  }

  /** The decimal digits of a natural number, as `${n}` writes them: they denote n, and
      only zero itself starts with '0'. */
  function NatToString(n: nat): (r: string)
    ensures |r| >= 1 && forall i :: 0 <= i < |r| ==> IsDigit(r[i])
    ensures DecimalValue(r) == n
    ensures r[0] == '0' <==> n == 0
    ensures n == 0 ==> r == "0"
  {
    var d := ('0' as int + n % 10) as char;
    if n < 10 then [d]
    else
      var r := NatToString(n / 10) + [d];
      assert r[..|r| - 1] == NatToString(n / 10);
      r
  }
}
