// The score file of both revisions: one line `<name>: <score>` per written team, appended at
// the end of a game and read back, line by line, when the next game starts.  The Python
// string operations involved (`str.strip`, `str.split(":")`, `int()`, iterating a text file
// by lines, `sorted(..., reverse=True)`) are written out here.

module ScoreLog {
  import opened Wrappers

  // ---------------------------------------------------------------------------------------
  // Whitespace and `str.strip()`

  /** The characters `str.isspace()` accepts, which `str.strip()` and `int()` remove. */
  predicate IsSpace(c: char) {
    var n := c as int;
    || n == 0x20 || 0x09 <= n <= 0x0D || 0x1C <= n <= 0x1F || n == 0x85 || n == 0xA0
    || n == 0x1680 || 0x2000 <= n <= 0x200A || n == 0x2028 || n == 0x2029 || n == 0x202F
    || n == 0x205F || n == 0x3000
  }

  /** A string without whitespace at either end. */
  predicate Trimmed(s: string) {
    s == [] || (!IsSpace(s[0]) && !IsSpace(s[|s| - 1]))
  }

  function StripLeft(s: string): (r: string)
    ensures |r| <= |s| && r == s[|s| - |r|..]
    ensures forall k | 0 <= k < |s| - |r| :: IsSpace(s[k])
    ensures r != [] ==> !IsSpace(r[0])
  {
    if s != [] && IsSpace(s[0]) then StripLeft(s[1..]) else s
  }

  function StripRight(s: string): (r: string)
    ensures |r| <= |s| && r == s[..|r|]
    ensures forall k | |r| <= k < |s| :: IsSpace(s[k])
    ensures r != [] ==> !IsSpace(r[|r| - 1])
  {
    if s != [] && IsSpace(s[|s| - 1]) then StripRight(s[..|s| - 1]) else s
  }

  /** `str.strip()` */
  function Strip(s: string): (r: string)
    ensures Trimmed(r)
  {
    StripRight(StripLeft(s))
  }

  lemma StripTrimmed(s: string)
    requires Trimmed(s)
    ensures Strip(s) == s
  {
  }

  /** Whitespace around a trimmed, non-empty string is exactly what strip removes. */
  lemma StripPadded(pre: string, x: string, post: string)
    requires x != [] && Trimmed(x)
    requires forall k | 0 <= k < |pre| :: IsSpace(pre[k])
    requires forall k | 0 <= k < |post| :: IsSpace(post[k])
    ensures Strip(pre + x + post) == x
  {
    var s := pre + x + post;
    var l := StripLeft(s);
    assert |s| - |l| == |pre| by {
      assert s[|pre|] == x[0];
    }
    assert l == x + post by {
      Associates(pre, x, post);
      DropFront(pre, x + post);
    }
    var r := StripRight(l);
    assert |r| == |x| by {
      assert l[|x| - 1] == x[|x| - 1];
    }
    TakeFront(x, post);
  }

  /** Three generic facts about concatenation, kept apart from the string functions. */
  lemma Associates<T>(p: seq<T>, q: seq<T>, r: seq<T>)
    ensures p + q + r == p + (q + r)
  {
  }

  lemma DropFront<T>(p: seq<T>, q: seq<T>)
    ensures (p + q)[|p|..] == q
  {
  }

  lemma TakeFront<T>(p: seq<T>, q: seq<T>)
    ensures (p + q)[..|p|] == p
  {
  }

  // ---------------------------------------------------------------------------------------
  // Integers: the f-string rendering and `int()`

  predicate IsDigit(c: char) {
    '0' as int <= c as int <= '9' as int
  }

  function DigitChar(d: nat): (c: char)
    requires d < 10
    ensures IsDigit(c) && c as int - '0' as int == d
  {
    ('0' as int + d) as char
  }

  /** The decimal digits of a natural number, most significant first. */
  function NatToString(n: nat): (r: string)
    ensures r != [] && forall k | 0 <= k < |r| :: IsDigit(r[k])
    ensures |r| > 1 ==> r[0] != '0'
  {
    if n < 10 then [DigitChar(n)] else NatToString(n / 10) + [DigitChar(n % 10)]
  }

  /** An int as an f-string writes it. */
  function IntToString(i: int): (r: string)
    ensures r != [] && Trimmed(r)
    ensures r[0] == '-' <==> i < 0
  {
    if i < 0 then "-" + NatToString(-i) else NatToString(i)
  }

  /** The digits `int()` accepts: decimal digits, with single underscores between them. */
  predicate DigitGroups(s: string) {
    && s != [] && IsDigit(s[0]) && IsDigit(s[|s| - 1])
    && forall k | 0 <= k < |s| :: IsDigit(s[k]) || (s[k] == '_' && k + 1 < |s| && IsDigit(s[k + 1]))
  }

  function DigitValue(c: char): nat
    requires IsDigit(c)
  {
    c as int - '0' as int
  }

  /** The value of a digit string, underscores skipped. */
  function DigitsValue(s: string): nat
    requires forall k | 0 <= k < |s| :: IsDigit(s[k]) || s[k] == '_'
  {
    if s == [] then 0
    else if s[|s| - 1] == '_' then DigitsValue(s[..|s| - 1])
    else DigitsValue(s[..|s| - 1]) * 10 + DigitValue(s[|s| - 1])
  }

  /** `int(s)` for a string, in base 10: surrounding whitespace, an optional sign, digits. */
  function ParseInt(s: string): (r: Result<int>)
    ensures r.Err? ==> r.error == ValueError
  {
    var t := Strip(s);
    if t == [] then Err(ValueError)
    else
      var body := if t[0] == '-' || t[0] == '+' then t[1..] else t;
      if !DigitGroups(body) then Err(ValueError)
      else
        var v: int := if t[0] == '-' then -(DigitsValue(body) as int) else DigitsValue(body);
        Ok(v)
  }

  lemma {:induction false} DigitsOfNatToString(n: nat)
    ensures DigitsValue(NatToString(n)) == n
  {
    if n >= 10 {
      DigitsOfNatToString(n / 10);
      var s := NatToString(n);
      assert s[..|s| - 1] == NatToString(n / 10);
    }
  }

  /** `int()` reads back what the f-string wrote, whatever whitespace surrounds it. */
  lemma ParseIntOfIntToString(pre: string, i: int, post: string)
    requires forall k | 0 <= k < |pre| :: IsSpace(pre[k])
    requires forall k | 0 <= k < |post| :: IsSpace(post[k])
    ensures ParseInt(pre + IntToString(i) + post) == Ok(i)
  {
    StripPadded(pre, IntToString(i), post);
    ParseIntOfStripped(pre + IntToString(i) + post, i);
  }

  lemma ParseIntOfStripped(s: string, i: int)
    requires Strip(s) == IntToString(i)
    ensures ParseInt(s) == Ok(i)
  {
    var t := IntToString(i);
    var n: nat := if i < 0 then -i else i;
    var digits := NatToString(n);
    assert DigitGroups(digits);
    assert DigitsValue(digits) == n by {
      DigitsOfNatToString(n);
    }
    var body := if t[0] == '-' || t[0] == '+' then t[1..] else t;
    assert body == digits by {
      if i < 0 {
        assert t == "-" + digits;
      } else {
        assert IsDigit(t[0]);
      }
    }
  }

  // ---------------------------------------------------------------------------------------
  // `str.split(":")` and the lines of a text file

  /** `s.split(sep)` for a one-character separator: the pieces between separators. */
  function Split(s: string, sep: char): (r: seq<string>)
    ensures r != []
  {
    if s == [] then [[]]
    else
      var rest := Split(s[1..], sep);
      if s[0] == sep then [[]] + rest else [[s[0]] + rest[0]] + rest[1..]
  }

  /** `sep.join(parts)` */
  function Join(parts: seq<string>, sep: char): string
    requires parts != []
  {
    if |parts| == 1 then parts[0] else parts[0] + [sep] + Join(parts[1..], sep)
  }

  lemma JoinHead(c: char, parts: seq<string>, sep: char)
    requires parts != []
    ensures Join([[c] + parts[0]] + parts[1..], sep) == [c] + Join(parts, sep)
  {
    var q := [[c] + parts[0]] + parts[1..];
    if |parts| > 1 {
      assert q[1..] == parts[1..];
    }
  }

  /** Splitting loses nothing: joining the pieces gives the string back. */
  lemma {:induction false} SplitJoin(s: string, sep: char)
    ensures Join(Split(s, sep), sep) == s
  {
    if s != [] {
      SplitJoin(s[1..], sep);
      var rest := Split(s[1..], sep);
      if s[0] == sep {
        assert ([[]] + rest)[1..] == rest;
      } else {
        JoinHead(s[0], rest, sep);
      }
      assert [s[0]] + s[1..] == s;
    }
  }

  /** No piece holds the separator. */
  lemma {:induction false} SplitPiecesLackSeparator(s: string, sep: char)
    ensures forall i | 0 <= i < |Split(s, sep)| :: sep !in Split(s, sep)[i]
  {
    if s != [] {
      SplitPiecesLackSeparator(s[1..], sep);
      var rest := Split(s[1..], sep);
      var r := Split(s, sep);
      forall i | 0 <= i < |r|
        ensures sep !in r[i]
      {
        if s[0] == sep {
          if i > 0 {
            assert r[i] == rest[i - 1];
          }
        } else if i > 0 {
          assert r[i] == rest[i];
        } else {
          assert r[0] == [s[0]] + rest[0];
        }
      }
    }
  }

  lemma {:induction false} SplitWithoutSeparator(s: string, sep: char)
    requires sep !in s
    ensures Split(s, sep) == [s]
  {
    if s != [] {
      SplitWithoutSeparator(s[1..], sep);
      assert [s[0]] + s[1..] == s;
    }
  }

  lemma {:induction false} SplitAtFirst(a: string, sep: char, b: string)
    requires sep !in a
    ensures Split(a + [sep] + b, sep) == [a] + Split(b, sep)
  {
    if a == [] {
      assert (a + [sep] + b)[1..] == b;
    } else {
      SplitAtFirst(a[1..], sep, b);
      assert (a + [sep] + b)[1..] == a[1..] + [sep] + b;
      assert [a[0]] + a[1..] == a;
    }
  }

  /** Iterating a text file: each line keeps its terminating newline, the last line may
      lack one. */
  function Lines(text: string): (r: seq<string>)
    ensures text == [] <==> r == []
  {
    if text == [] then []
    else
      var rest := Lines(text[1..]);
      if text[0] == '\n' || rest == [] then [[text[0]]] + rest
      else [[text[0]] + rest[0]] + rest[1..]
  }

  function Concat(parts: seq<string>): string {
    if parts == [] then [] else parts[0] + Concat(parts[1..])
  }

  /** A line as the iteration yields it: no newline but possibly the last character. */
  predicate IsLine(line: string) {
    line != [] && forall k | 0 <= k < |line| - 1 :: line[k] != '\n'
  }

  /** The lines give the text back, and each of them but the last ends with a newline. */
  lemma {:induction false} LinesMeaning(text: string)
    ensures Concat(Lines(text)) == text
    ensures forall i | 0 <= i < |Lines(text)| ::
      IsLine(Lines(text)[i]) && (i < |Lines(text)| - 1 ==> Lines(text)[i][|Lines(text)[i]| - 1] == '\n')
  {
    if text != [] {
      LinesMeaning(text[1..]);
      var rest := Lines(text[1..]);
      var r := Lines(text);
      if text[0] == '\n' || rest == [] {
        assert r[1..] == rest;
      } else {
        assert r[1..] == rest[1..];
        assert Concat(r) == ([text[0]] + rest[0]) + Concat(rest[1..]);
        Associates([text[0]], rest[0], Concat(rest[1..]));
        forall i | 0 <= i < |r| - 1
          ensures r[i][|r[i]| - 1] == '\n'
        {
          if i > 0 {
            assert r[i] == rest[i];
          }
        }
      }
      assert [text[0]] + text[1..] == text;
    }
  }

  /** A whole line in front of the rest of the text is the first line read. */
  lemma {:induction false} LinesAfterLine(line: string, rest: string)
    requires IsLine(line) && line[|line| - 1] == '\n'
    ensures Lines(line + rest) == [line] + Lines(rest)
  {
    if |line| == 1 {
      assert (line + rest)[1..] == rest;
      assert [line[0]] == line;
    } else {
      assert line[0] != '\n';
      LinesAfterLine(line[1..], rest);
      assert (line + rest)[1..] == line[1..] + rest;
      assert [line[0]] + line[1..] == line;
    }
  }

  /** A file opened in text mode reads with universal newlines: `"\r\n"` and a lone `'\r'`
      both arrive as `'\n'`. */
  function TranslateNewlines(text: string): (r: string)
    ensures '\r' !in r && |r| <= |text|
  {
    if text == [] then []
    else if text[0] == '\r' then
      ['\n'] + TranslateNewlines(if |text| > 1 && text[1] == '\n' then text[2..] else text[1..])
    else [text[0]] + TranslateNewlines(text[1..])
  }

  /** Text without carriage returns is read as written. */
  lemma {:induction false} TranslateNewlinesWithoutReturns(text: string)
    requires '\r' !in text
    ensures TranslateNewlines(text) == text
  {
    if text != [] {
      TranslateNewlinesWithoutReturns(text[1..]);
      assert [text[0]] + text[1..] == text;
    }
  }

  /** The text after a carriage return that a newline follows, or after a lone one. */
  function AfterReturn(rest: string): string {
    if rest != [] && rest[0] == '\n' then rest[1..] else rest
  }

  /** A carriage return, lone or before a newline, is read as the one newline. */
  lemma {:induction false} ReturnTranslated(line: string, rest: string)
    requires '\r' !in line
    ensures TranslateNewlines(line + ['\r'] + rest) == line + ['\n'] + TranslateNewlines(AfterReturn(rest))
  {
    if line == [] {
      assert line + ['\r'] + rest == ['\r'] + rest;
      assert (['\r'] + rest)[1..] == rest;
      if rest != [] && rest[0] == '\n' {
        assert (['\r'] + rest)[2..] == rest[1..];
      }
    } else {
      ReturnTranslated(line[1..], rest);
      assert (line + ['\r'] + rest)[1..] == line[1..] + ['\r'] + rest;
      assert [line[0]] + (line[1..] + ['\n'] + TranslateNewlines(AfterReturn(rest)))
          == line + ['\n'] + TranslateNewlines(AfterReturn(rest));
    }
  }

  /** A line ended by a carriage return, lone or before a newline, is read as one line. */
  lemma ReturnEndsLine(line: string, rest: string)
    requires '\r' !in line && '\n' !in line
    ensures Lines(TranslateNewlines(line + ['\r'] + rest))
            == [line + ['\n']] + Lines(TranslateNewlines(AfterReturn(rest)))
  {
    ReturnTranslated(line, rest);
    LinesAfterLine(line + ['\n'], TranslateNewlines(AfterReturn(rest)));
  }

  // ---------------------------------------------------------------------------------------
  // One score line

  type Entry = (string, int)

  /** What follows the colon: `f" {score}\n"`. */
  function ScoreField(score: int): string {
    " " + IntToString(score) + "\n"
  }

  /** `f"{name}: {score}\n"` */
  function FormatLine(e: Entry): string {
    e.0 + [':'] + ScoreField(e.1)
  }

  /** The lines written for a list of entries, in order. */
  function FormatLines(entries: seq<Entry>): (r: seq<string>)
    ensures |r| == |entries|
  {
    Map(FormatLine, entries)
  }

  /** `f` applied to each element, in order. */
  function Map<T, U>(f: T -> U, s: seq<T>): (r: seq<U>)
    ensures |r| == |s|
  {
    if s == [] then [] else [f(s[0])] + Map(f, s[1..])
  }

  /** The text those lines make. */
  function ScoreText(entries: seq<Entry>): string {
    Concat(FormatLines(entries))
  }

  /** One line as `_read_scores` takes it apart: `team, score = line.split(":")` (a
      ValueError unless there is exactly one colon), `int(score)`, `team.strip()`. */
  function ParseLine(line: string): (r: Result<Entry>)
    ensures r.Err? ==> r.error == ValueError
    ensures r.Ok? ==> Trimmed(r.value.0)
  {
    var parts := Split(line, ':');
    if |parts| != 2 then Err(ValueError)
    else
      match ParseInt(parts[1])
      case Err(e) => Err(e)
      case Ok(score) => Ok((Strip(parts[0]), score))
  }

  /** A name fit for the score file: no colon, no line end, no whitespace at either end. */
  predicate Writable(name: string) {
    ':' !in name && '\n' !in name && '\r' !in name && Trimmed(name)
  }

  /** The rendering of a number holds a sign and digits only. */
  lemma IntToStringLacks(score: int, c: char)
    requires c != '-' && !IsDigit(c)
    ensures c !in IntToString(score)
  {
    var digits := IntToString(score);
    assert forall k | 0 <= k < |digits| :: digits[k] == '-' || IsDigit(digits[k]);
  }

  /** What follows the colon of a written line is read back as the score. */
  lemma ScoreFieldParses(score: int)
    ensures Split(ScoreField(score), ':') == [ScoreField(score)]
    ensures ParseInt(ScoreField(score)) == Ok(score)
  {
    IntToStringLacks(score, ':');
    SplitWithoutSeparator(ScoreField(score), ':');
    ParseIntOfIntToString(" ", score, "\n");
  }

  lemma ParseLineOfParts(line: string, name: string, field: string)
    requires Split(line, ':') == [name, field] && ParseInt(field).Ok? && Trimmed(name)
    ensures ParseLine(line) == Ok((name, ParseInt(field).value))
  {
    StripTrimmed(name);
  }

  /** Reading a written line gives back the entry. */
  lemma ParseFormatLine(e: Entry)
    requires Writable(e.0)
    ensures ParseLine(FormatLine(e)) == Ok(e)
  {
    ScoreFieldParses(e.1);
    SplitAtFirst(e.0, ':', ScoreField(e.1));
    ParseLineOfParts(FormatLine(e), e.0, ScoreField(e.1));
  }

  lemma FormatLineIsLine(e: Entry)
    requires Writable(e.0)
    ensures IsLine(FormatLine(e)) && FormatLine(e)[|FormatLine(e)| - 1] == '\n'
  {
    var digits := IntToString(e.1);
    assert forall k | 0 <= k < |digits| :: digits[k] == '-' || IsDigit(digits[k]);
  }

  /** The file written for a list of entries reads back as one line per entry. */
  lemma {:induction false} LinesOfScoreText(entries: seq<Entry>)
    requires forall e | e in entries :: Writable(e.0)
    ensures Lines(ScoreText(entries)) == FormatLines(entries)
  {
    if entries != [] {
      FormatLineIsLine(entries[0]);
      assert ScoreText(entries) == FormatLine(entries[0]) + ScoreText(entries[1..]);
      LinesAfterLine(FormatLine(entries[0]), ScoreText(entries[1..]));
      LinesOfScoreText(entries[1..]);
    }
  }

  /** What a game writes holds no carriage return, so universal newlines leave it alone. */
  lemma {:induction false} ScoreTextLacksReturn(entries: seq<Entry>)
    requires forall e | e in entries :: Writable(e.0)
    ensures '\r' !in ScoreText(entries)
  {
    if entries != [] {
      IntToStringLacks(entries[0].1, '\r');
      assert ScoreText(entries) == FormatLine(entries[0]) + ScoreText(entries[1..]);
      ScoreTextLacksReturn(entries[1..]);
    }
  }

  lemma {:induction false} ConcatAppend(p: seq<string>, q: seq<string>)
    ensures Concat(p) + Concat(q) == Concat(p + q)
  {
    if p == [] {
      assert p + q == q;
    } else {
      ConcatAppend(p[1..], q);
      assert (p + q)[0] == p[0] && (p + q)[1..] == p[1..] + q;
      Associates(p[0], Concat(p[1..]), Concat(q));
    }
  }

  lemma {:induction false} MapAppend<T, U>(f: T -> U, a: seq<T>, b: seq<T>)
    ensures Map(f, a) + Map(f, b) == Map(f, a + b)
  {
    if a == [] {
      assert a + b == b;
    } else {
      MapAppend(f, a[1..], b);
      assert (a + b)[0] == a[0] && (a + b)[1..] == a[1..] + b;
      Associates([f(a[0])], Map(f, a[1..]), Map(f, b));
    }
  }

  /** Appending the lines of two games gives the text of both games' entries. */
  lemma ScoreTextAppend(a: seq<Entry>, b: seq<Entry>)
    ensures ScoreText(a) + ScoreText(b) == ScoreText(a + b)
  {
    MapAppend(FormatLine, a, b);
    ConcatAppend(FormatLines(a), FormatLines(b));
  }

  /** Writing one more line extends the text by exactly that line. */
  lemma ScoreTextSnoc(entries: seq<Entry>, i: nat)
    requires i < |entries|
    ensures ScoreText(entries[..i + 1]) == ScoreText(entries[..i]) + FormatLine(entries[i])
  {
    assert entries[..i + 1] == entries[..i] + [entries[i]];
    ScoreTextAppend(entries[..i], [entries[i]]);
    assert ScoreText([entries[i]]) == FormatLine(entries[i]) + ScoreText([]);
  }

  // ---------------------------------------------------------------------------------------
  // `sorted(scores, key=lambda x: x[1], reverse=True)`: descending and stable

  predicate SortedDesc(s: seq<Entry>) {
    forall i, j | 0 <= i < j < |s| :: s[i].1 >= s[j].1
  }

  /** Insert behind every entry with a score at least as high. */
  function InsertDesc(x: Entry, s: seq<Entry>): (r: seq<Entry>)
    ensures multiset(r) == multiset(s) + multiset{x}
  {
    if s == [] then [x]
    else if s[0].1 >= x.1 then
      assert s == [s[0]] + s[1..];
      [s[0]] + InsertDesc(x, s[1..])
    else [x] + s
  }

  function SortDesc(s: seq<Entry>): (r: seq<Entry>)
    ensures multiset(r) == multiset(s)
  {
    if s == [] then []
    else
      assert s == s[..|s| - 1] + [s[|s| - 1]];
      InsertDesc(s[|s| - 1], SortDesc(s[..|s| - 1]))
  }

  lemma {:induction false} InsertDescSorted(x: Entry, s: seq<Entry>)
    requires SortedDesc(s)
    ensures SortedDesc(InsertDesc(x, s))
  {
    if s != [] && s[0].1 >= x.1 {
      InsertDescSorted(x, s[1..]);
      var r := InsertDesc(x, s);
      forall j | 0 < j < |r|
        ensures r[0].1 >= r[j].1
      {
        assert r[j] in multiset(InsertDesc(x, s[1..]));
      }
    }
  }

  /** The entries of one score, in their order. */
  function WithScore(s: seq<Entry>, k: int): seq<Entry> {
    if s == [] then []
    else WithScore(s[..|s| - 1], k) + (if s[|s| - 1].1 == k then [s[|s| - 1]] else [])
  }

  lemma {:induction false} WithScoreConcat(a: seq<Entry>, b: seq<Entry>, k: int)
    ensures WithScore(a + b, k) == WithScore(a, k) + WithScore(b, k)
  {
    if b != [] {
      WithScoreConcat(a, b[..|b| - 1], k);
      assert (a + b)[..|a + b| - 1] == a + b[..|b| - 1];
      assert (a + b)[|a + b| - 1] == b[|b| - 1];
    } else {
      assert a + b == a;
    }
  }

  lemma {:induction false} WithScoreNone(s: seq<Entry>, k: int)
    requires forall i | 0 <= i < |s| :: s[i].1 != k
    ensures WithScore(s, k) == []
  {
    if s != [] {
      WithScoreNone(s[..|s| - 1], k);
    }
  }

  lemma WithScoreCons(y: Entry, t: seq<Entry>, k: int)
    ensures WithScore([y] + t, k) == (if y.1 == k then [y] else []) + WithScore(t, k)
  {
    WithScoreConcat([y], t, k);
    assert [y][..0] == [];
  }

  lemma {:induction false} InsertDescStable(x: Entry, s: seq<Entry>, k: int)
    requires SortedDesc(s)
    ensures WithScore(InsertDesc(x, s), k) == WithScore(s, k) + (if x.1 == k then [x] else [])
  {
    if s == [] {
      WithScoreCons(x, [], k);
    } else if s[0].1 >= x.1 {
      InsertDescStable(x, s[1..], k);
      WithScoreCons(s[0], InsertDesc(x, s[1..]), k);
      WithScoreCons(s[0], s[1..], k);
      assert [s[0]] + s[1..] == s;
      Associates(if s[0].1 == k then [s[0]] else [], WithScore(s[1..], k), if x.1 == k then [x] else []);
    } else {
      WithScoreCons(x, s, k);
      if x.1 == k {
        WithScoreNone(s, k);
      }
    }
  }

  /** The sort is descending, keeps the entries, and keeps the order of entries with equal
      scores (Python's sort is stable, also with `reverse=True`). */
  lemma {:induction false} SortDescMeaning(s: seq<Entry>)
    ensures SortedDesc(SortDesc(s)) && multiset(SortDesc(s)) == multiset(s)
    ensures forall k :: WithScore(SortDesc(s), k) == WithScore(s, k)
  {
    if s != [] {
      SortDescMeaning(s[..|s| - 1]);
      InsertDescSorted(s[|s| - 1], SortDesc(s[..|s| - 1]));
      forall k
        ensures WithScore(SortDesc(s), k) == WithScore(s, k)
      {
        InsertDescStable(s[|s| - 1], SortDesc(s[..|s| - 1]), k);
      }
    }
  }
}
