/** The small part of Go's strings, strconv and fmt that the generators print and parse with. */
module Text {
  datatype Option<+T> = None | Some(value: T)

  ghost predicate Without(s: string, c: char) {
    forall i :: 0 <= i < |s| ==> s[i] != c
  }

  predicate HasPrefix(s: string, prefix: string) {
    |prefix| <= |s| && s[..|prefix|] == prefix
  }

  predicate HasSuffix(s: string, suffix: string) {
    |suffix| <= |s| && s[|s| - |suffix|..] == suffix
  }

  // strings.Split(s, sep) for a separator of one character: never empty.
  function Split(s: string, sep: char): (parts: seq<string>)
    ensures parts != []
  {
    if s == "" then [""] else PutFirst(s[0], sep, Split(s[1..], sep))
  }

  function PutFirst(c: char, sep: char, parts: seq<string>): (r: seq<string>)
    requires parts != []
    ensures r != []
  {
    if c == sep then [""] + parts else [[c] + parts[0]] + parts[1..]
  }

  // strings.Join(parts, sep)
  function Join(parts: seq<string>, sep: char): string {
    if parts == [] then ""
    else if |parts| == 1 then parts[0]
    else parts[0] + [sep] + Join(parts[1..], sep)
  }

  lemma {:induction false} SplitWhole(s: string, sep: char)
    requires Without(s, sep)
    ensures Split(s, sep) == [s]
  {
    if s != "" {
      assert s[0] != sep;
      forall i | 0 <= i < |s[1..]| ensures s[1..][i] != sep { assert s[1..][i] == s[i + 1]; }
      SplitWhole(s[1..], sep);
      assert [s[0]] + s[1..] == s;
    }
  }

  lemma PutFirstConcat(c: char, sep: char, a: seq<string>, b: seq<string>)
    requires a != []
    ensures PutFirst(c, sep, a + b) == PutFirst(c, sep, a) + b
  {
    if c == sep {
      assert [""] + (a + b) == [""] + a + b;
    } else {
      assert (a + b)[0] == a[0] && (a + b)[1..] == a[1..] + b;
      assert [[c] + a[0]] + (a[1..] + b) == [[c] + a[0]] + a[1..] + b;
    }
  }

  lemma {:induction false} SplitConcat(a: string, sep: char, b: string)
    ensures Split(a + [sep] + b, sep) == Split(a, sep) + Split(b, sep)
  {
    var s := a + [sep] + b;
    if a == "" {
      assert s[1..] == b && s[0] == sep;
    } else {
      assert s[1..] == a[1..] + [sep] + b && s[0] == a[0];
      SplitConcat(a[1..], sep, b);
      PutFirstConcat(a[0], sep, Split(a[1..], sep), Split(b, sep));
    }
  }

  // Joining and splitting are inverse on parts free of the separator.
  lemma {:induction false} SplitJoin(parts: seq<string>, sep: char)
    requires parts != [] && forall p :: p in parts ==> Without(p, sep)
    ensures Split(Join(parts, sep), sep) == parts
  {
    assert parts[0] in parts;
    SplitWhole(parts[0], sep);
    if |parts| > 1 {
      SplitConcat(parts[0], sep, Join(parts[1..], sep));
      SplitJoin(parts[1..], sep);
      assert parts == [parts[0]] + parts[1..];
    } else {
      assert parts == [parts[0]];
    }
  }

  lemma JoinPutFirst(c: char, sep: char, parts: seq<string>)
    requires parts != []
    ensures Join(PutFirst(c, sep, parts), sep) == [c] + Join(parts, sep)
  {
    var r := PutFirst(c, sep, parts);
    if c == sep {
      assert r[1..] == parts;
    } else {
      assert r[1..] == parts[1..];
      if |parts| > 1 {
        assert [c] + (parts[0] + [sep] + Join(parts[1..], sep)) == ([c] + parts[0]) + [sep] + Join(parts[1..], sep);
      }
    }
  }

  lemma {:induction false} JoinSplit(s: string, sep: char)
    ensures Join(Split(s, sep), sep) == s
    ensures forall p :: p in Split(s, sep) ==> Without(p, sep)
  {
    if s != "" {
      var rest := Split(s[1..], sep);
      JoinSplit(s[1..], sep);
      JoinPutFirst(s[0], sep, rest);
      assert [s[0]] + s[1..] == s;
      assert rest[0] in rest;
    }
  }

  // A file in which every line is closed by a newline.
  function Unlines(lines: seq<string>): string {
    if lines == [] then "" else lines[0] + "\n" + Unlines(lines[1..])
  }

  lemma UnlinesCons(l: string, rest: seq<string>)
    ensures Unlines([l] + rest) == l + "\n" + Unlines(rest)
  {
    assert ([l] + rest)[1..] == rest;
  }

  lemma {:induction false} UnlinesAppend(a: seq<string>, b: seq<string>)
    ensures Unlines(a + b) == Unlines(a) + Unlines(b)
  {
    if a == [] {
      assert a + b == b;
    } else {
      var l, rest := a[0], a[1..];
      UnlinesAppend(rest, b);
      assert a == [l] + rest && a + b == [l] + (rest + b);
      UnlinesCons(l, rest);
      UnlinesCons(l, rest + b);
      ConcatAssoc(l + "\n", Unlines(rest), Unlines(b));
    }
  }

  ghost predicate OneLiners(lines: seq<string>) {
    forall l :: l in lines ==> Without(l, '\n')
  }

  // The lines of a file; None when the last one is not closed.
  function Lines(text: string): Option<seq<string>> {
    var parts := Split(text, '\n');
    if parts[|parts| - 1] == "" then Some(parts[..|parts| - 1]) else None
  }

  lemma {:induction false} SplitUnlines(lines: seq<string>)
    requires OneLiners(lines)
    ensures Split(Unlines(lines), '\n') == lines + [""]
  {
    if lines == [] {
      assert lines + [""] == [""];
    } else {
      assert lines[0] in lines;
      SplitWhole(lines[0], '\n');
      SplitUnlines(lines[1..]);
      SplitConcat(lines[0], '\n', Unlines(lines[1..]));
      assert lines[0] + ['\n'] + Unlines(lines[1..]) == Unlines(lines);
      assert [lines[0]] + (lines[1..] + [""]) == lines + [""];
    }
  }

  // A file made of lines reads back as exactly those lines.
  lemma LinesUnlines(lines: seq<string>)
    requires OneLiners(lines)
    ensures Lines(Unlines(lines)) == Some(lines)
  {
    SplitUnlines(lines);
    assert (lines + [""])[..|lines|] == lines;
  }

  // ---- Decimal numbers ----

  predicate IsDigit(c: char) { '0' <= c <= '9' }

  function Digit(d: nat): (c: char)
    requires d < 10
    ensures IsDigit(c)
  {
    '0' + (d as char)
  }

  ghost predicate AllDigits(s: string) {
    forall i :: 0 <= i < |s| ==> IsDigit(s[i])
  }

  // fmt's %d for a non-negative number
  function PrintNat(n: nat): (s: string)
    ensures s != "" && AllDigits(s)
    ensures s[0] == '0' ==> s == "0"
    ensures n > 0 ==> s[0] != '0'
  {
    if n < 10 then [Digit(n)] else PrintNat(n / 10) + [Digit(n % 10)]
  }

  function PrintInt(n: int): string {
    if n < 0 then "-" + PrintNat(-n) else PrintNat(n)
  }

  // Digits only, at least one, leading zeros allowed.
  function ParseNat(s: string): Option<nat> {
    if s == "" || !IsDigit(s[|s| - 1]) then None
    else
      var d := (s[|s| - 1] as int) - ('0' as int);
      if |s| == 1 then Some(d)
      else match ParseNat(s[..|s| - 1])
        case None => None
        case Some(n) => Some(10 * n + d)
  }

  lemma {:induction false} ParsePrintNat(n: nat)
    ensures ParseNat(PrintNat(n)) == Some(n)
  {
    var s := PrintNat(n);
    if n >= 10 {
      ParsePrintNat(n / 10);
      assert s[..|s| - 1] == PrintNat(n / 10);
    }
  }

  // Text that a prefix with a known last character cannot be confused with.
  lemma PrefixSplit(prefix: string, rest: string)
    ensures HasPrefix(prefix + rest, prefix) && (prefix + rest)[|prefix|..] == rest
  {
  }

  function LastIndex(s: string, c: char): (r: Option<nat>)
    ensures r.None? ==> Without(s, c)
    ensures r.Some? ==> r.value < |s| && s[r.value] == c && Without(s[r.value + 1..], c)
  {
    if s == "" then None
    else if s[|s| - 1] == c then Some(|s| - 1)
    else LastIndex(s[..|s| - 1], c)
  }

  function Index(s: string, c: char): (r: Option<nat>)
    ensures r.None? ==> Without(s, c)
    ensures r.Some? ==> r.value < |s| && s[r.value] == c && Without(s[..r.value], c)
  {
    if s == "" then None
    else if s[0] == c then Some(0)
    else match Index(s[1..], c)
      case None => None
      case Some(i) => Some(i + 1)
  }

  lemma {:induction false} IndexAt(head: string, c: char, tail: string)
    requires Without(head, c)
    ensures Index(head + [c] + tail, c) == Some(|head|)
  {
    var s := head + [c] + tail;
    if head != "" {
      assert s[0] == head[0] && s[1..] == head[1..] + [c] + tail;
      IndexAt(head[1..], c, tail);
    }
  }

  // ---- Zero or more items for each row ----

  function FlatMap<T, U>(f: T -> seq<U>, rows: seq<T>): seq<U> {
    if rows == [] then [] else f(rows[0]) + FlatMap(f, rows[1..])
  }

  lemma ConcatAssoc<T>(a: seq<T>, b: seq<T>, c: seq<T>)
    ensures a + b + c == a + (b + c)
  {
  }

  lemma FlatMapCons<T, U>(f: T -> seq<U>, x: T, rest: seq<T>)
    ensures FlatMap(f, [x] + rest) == f(x) + FlatMap(f, rest)
  {
    assert ([x] + rest)[1..] == rest;
  }

  lemma {:induction false} FlatMapAppend<T, U>(f: T -> seq<U>, a: seq<T>, b: seq<T>)
    ensures FlatMap(f, a + b) == FlatMap(f, a) + FlatMap(f, b)
  {
    if a == [] {
      assert a + b == b;
    } else {
      var x, rest := a[0], a[1..];
      FlatMapAppend(f, rest, b);
      assert a == [x] + rest && a + b == [x] + (rest + b);
      FlatMapCons(f, x, rest);
      FlatMapCons(f, x, rest + b);
      ConcatAssoc(f(x), FlatMap(f, rest), FlatMap(f, b));
    }
  }

  lemma FlatMapOne<T, U>(f: T -> seq<U>, x: T)
    ensures FlatMap(f, [x]) == f(x)
  {
    assert [x][1..] == [];
  }

  lemma FlatMapSnoc<T, U>(f: T -> seq<U>, rows: seq<T>, i: nat)
    requires i < |rows|
    ensures FlatMap(f, rows[..i + 1]) == FlatMap(f, rows[..i]) + f(rows[i])
  {
    FlatMapAppend(f, rows[..i], [rows[i]]);
    assert rows[..i + 1] == rows[..i] + [rows[i]];
    FlatMapOne(f, rows[i]);
  }

  lemma {:induction false} FlatMapFrom<T, U>(f: T -> seq<U>, rows: seq<T>, x: U)
    ensures x in FlatMap(f, rows) <==> exists r :: r in rows && x in f(r)
  {
    if rows != [] {
      FlatMapFrom(f, rows[1..], x);
      assert rows == [rows[0]] + rows[1..];
    }
  }
}
