/** The public catalog page `/books`: the available books matching the
    optional `category`, `author` and `year` search parameters, by title,
    and the option lists of the filter form (distinct categories, authors
    and years of the available books, years newest first). */
module Catalog {
  import opened Domain
  import opened Sorting
  import Seqs

  /** JavaScript's white space and line terminators as `parseInt` skips
      them (the Unicode space separators other than NBSP are not listed). */
  predicate IsSpace(c: char)
  {
    || c == ' ' || c == '\t' || c == '\n' || c == '\r' || c == '\U{000B}' || c == '\U{000C}'
    || c == '\U{00A0}' || c == '\U{FEFF}' || c == '\U{2028}' || c == '\U{2029}'
  }

  /** Every character of `p` is white space. */
  predicate AllSpace(p: string)
  {
    forall i :: 0 <= i < |p| ==> IsSpace(p[i])
  }

  /** `s` without its leading white space. */
  function TrimStart(s: string): (t: string)
    ensures |t| <= |s| && t == s[|s| - |t|..]
    ensures t == [] || !IsSpace(t[0])
    ensures s == [] || !IsSpace(s[0]) ==> t == s
    ensures AllSpace(s[..|s| - |t|])
  {
    if s != [] && IsSpace(s[0]) then
      var rest := TrimStart(s[1..]);
      assert s[..|s| - |rest|] == [s[0]] + s[1..][..|s| - 1 - |rest|];
      rest
    else s
  }

  /** The value of `c` as a digit in base `radix` (10 or 16). */
  function DigitValue(c: char, radix: nat): (d: Option<nat>)
    ensures d.Some? ==> d.value < radix
  {
    if '0' <= c <= '9' && (c as int - '0' as int) < radix then Some(c as int - '0' as int)
    else if radix == 16 && 'a' <= c <= 'f' then Some(c as int - 'a' as int + 10)
    else if radix == 16 && 'A' <= c <= 'F' then Some(c as int - 'A' as int + 10)
    else None
  }

  predicate AllDigits(s: string, radix: nat)
  {
    forall i :: 0 <= i < |s| ==> DigitValue(s[i], radix).Some?
  }

  /** The length of the longest prefix of `s` made of digits. */
  function DigitRun(s: string, radix: nat): (n: nat)
    ensures n <= |s| && AllDigits(s[..n], radix)
    ensures n < |s| ==> DigitValue(s[n], radix).None?
  {
    if s == [] || DigitValue(s[0], radix).None? then 0
    else
      var n := 1 + DigitRun(s[1..], radix);
      assert forall i :: 1 <= i < n ==> s[..n][i] == s[1..][..n - 1][i - 1];
      n
  }

  /** The number the digits spell, most significant first. */
  function DigitsValue(s: string, radix: nat): nat
    requires AllDigits(s, radix)
  {
    if s == [] then 0
    else DigitsValue(s[..|s| - 1], radix) * radix + DigitValue(s[|s| - 1], radix).value
  }

  /** `u` starts with `0x` or `0X`. */
  predicate HexPrefixed(u: string)
  {
    |u| >= 2 && u[0] == '0' && (u[1] == 'x' || u[1] == 'X')
  }

  /** The unsigned part of `parseInt`: an optional `0x`/`0X` prefix
      selecting base 16, then the longest run of digits; `None` when there
      is no digit. */
  function ParseMagnitude(u: string): (r: Option<int>)
    ensures r.Some? ==> r.value >= 0
    ensures HexPrefixed(u) ==> (r.None? <==> DigitRun(u[2..], 16) == 0)
    ensures !HexPrefixed(u) ==> (r.None? <==> DigitRun(u, 10) == 0)
  {
    var hex := HexPrefixed(u);
    var radix := if hex then 16 else 10;
    var v := if hex then u[2..] else u;
    var n := DigitRun(v, radix);
    if n == 0 then None else Some(DigitsValue(v[..n], radix))
  }

  /** `parseInt(s)`: optional leading white space, an optional sign, then
      the magnitude; `None` stands for `NaN`. */
  function ParseInt(s: string): (r: Option<int>)
    ensures var t := TrimStart(s);
      r.None? <==> ParseMagnitude(if t != [] && (t[0] == '-' || t[0] == '+') then t[1..] else t).None?
    ensures var t := TrimStart(s); r.Some? && t != [] && t[0] == '-' ==> r.value <= 0
    ensures var t := TrimStart(s); r.Some? && !(t != [] && t[0] == '-') ==> r.value >= 0
  {
    var t := TrimStart(s);
    if t != [] && t[0] == '-' then
      match ParseMagnitude(t[1..])
      case None => None
      case Some(m) => Some(-m)
    else if t != [] && t[0] == '+' then ParseMagnitude(t[1..])
    else ParseMagnitude(t)
  }

  function DecimalChar(d: nat): (c: char)
    requires d < 10
    ensures DigitValue(c, 10) == Some(d)
  {
    ('0' as int + d) as char
  }

  function NatToString(n: nat): (s: string)
    ensures s != [] && AllDigits(s, 10)
  {
    if n < 10 then [DecimalChar(n)] else NatToString(n / 10) + [DecimalChar(n % 10)]
  }

  /** `n.toString()` for an integer `n`. */
  function IntToString(n: int): string
  {
    if n < 0 then "-" + NatToString(-n) else NatToString(n)
  }

  lemma {:induction false} NatToStringValue(n: nat)
    ensures DigitsValue(NatToString(n), 10) == n
  {
    var s := NatToString(n);
    if n >= 10 {
      NatToStringValue(n / 10);
      assert s[..|s| - 1] == NatToString(n / 10);
    }
  }

  lemma {:induction false} DigitRunAll(s: string, radix: nat)
    requires AllDigits(s, radix)
    ensures DigitRun(s, radix) == |s|
  {
    if s != [] {
      DigitRunAll(s[1..], radix);
    }
  }

  /** A run of decimal digits is read in base 10, as its value. */
  lemma {:induction false} MagnitudeOfDecimal(d: string)
    requires d != [] && AllDigits(d, 10)
    ensures ParseMagnitude(d) == Some(DigitsValue(d, 10))
  {
    DigitRunAll(d, 10);
    assert d[..|d|] == d;
    assert |d| >= 2 ==> DigitValue(d[1], 10).Some?;
  }

  /** A year option's value, `y.toString()`, reads back as `y`: choosing a
      year in the filter form filters by exactly that year. */
  lemma ParseIntOfToString(n: int)
    ensures ParseInt(IntToString(n)) == Some(n)
  {
    var m := if n < 0 then -n else n;
    NatToStringValue(m);
    if n < 0 {
      ParseNegativeDigits(NatToString(m));
    } else {
      ParseDigits(NatToString(m));
    }
  }

  /** A decimal digit string parses to its value. */
  lemma {:induction false} ParseDigits(d: string)
    requires d != [] && AllDigits(d, 10)
    ensures ParseInt(d) == Some(DigitsValue(d, 10))
  {
    MagnitudeOfDecimal(d);
    assert DigitValue(d[0], 10).Some?;
    assert d[0] != '-' && d[0] != '+' && !IsSpace(d[0]);
    assert TrimStart(d) == d;
  }

  /** A minus sign and a decimal digit string parse to minus its value. */
  lemma {:induction false} ParseNegativeDigits(d: string)
    requires d != [] && AllDigits(d, 10)
    ensures var v: int := DigitsValue(d, 10); ParseInt("-" + d) == Some(-v)
  {
    var v := DigitsValue(d, 10);
    assert ParseMagnitude(d) == Some(v) by { MagnitudeOfDecimal(d); }
    ParseMinus(d, v);
  }

  /** A minus sign before a magnitude negates it. */
  lemma {:induction false} ParseMinus(d: string, v: nat)
    requires ParseMagnitude(d) == Some(v)
    ensures var w: int := v; ParseInt("-" + d) == Some(-w)
  {
    var t := "-" + d;
    assert t[0] == '-' && t[1..] == d;
    assert !IsSpace(t[0]);
    assert TrimStart(t) == t;
  }

  /** The search parameters; `None` is an absent parameter. */
  datatype CatalogQuery = CatalogQuery(category: Option<string>, author: Option<string>, year: Option<string>)

  /** The `where` object: available, and equal on each truthy parameter.
      A year that parses to `NaN` matches no book. */
  predicate Matches(b: Book, q: CatalogQuery)
    ensures Matches(b, q) ==> b.isAvailable
    ensures !TruthyStr(q.category) && !TruthyStr(q.author) && !TruthyStr(q.year) ==> (Matches(b, q) <==> b.isAvailable)
    ensures TruthyStr(q.year) && ParseInt(q.year.value).None? ==> !Matches(b, q)
  {
    && b.isAvailable
    && (TruthyStr(q.category) ==> b.category == q.category.value)
    && (TruthyStr(q.author) ==> b.author == q.author.value)
    && (TruthyStr(q.year) ==> ParseInt(q.year.value) == Some(b.year))
  }

  /** The listed books: the matching ones, by title ascending. */
  function ListCatalog(books: seq<Book>, q: CatalogQuery): (r: seq<Book>)
    ensures multiset(r) == multiset(Seqs.Filter(books, (b: Book) => Matches(b, q)))
    ensures SortedAscByStr(r, BookTitle)
    ensures forall b :: b in r <==> b in books && Matches(b, q)
  {
    var matching := Seqs.Filter(books, (b: Book) => Matches(b, q));
    var sorted := SortAscByStr(matching, BookTitle);
    PermutationMembers(sorted, matching);
    sorted
  }

  /** With no filter, or only empty ones, the page lists exactly the
      available books. */
  lemma EmptyFiltersListAvailable(books: seq<Book>, q: CatalogQuery)
    requires !TruthyStr(q.category) && !TruthyStr(q.author) && !TruthyStr(q.year)
    ensures forall b :: b in ListCatalog(books, q) <==> b in books && b.isAvailable
  {
  }

  /** Each truthy parameter constrains by exact match, the year through
      its decimal spelling. */
  lemma FilterByOptions(books: seq<Book>, category: string, author: string, year: int)
    requires category != "" && author != ""
    ensures forall b :: b in ListCatalog(books, CatalogQuery(Some(category), Some(author), Some(IntToString(year)))) <==>
      b in books && b.isAvailable && b.category == category && b.author == author && b.year == year
  {
    ParseIntOfToString(year);
    assert IntToString(year) != [];
  }

  function Available(books: seq<Book>): (r: seq<Book>)
    ensures forall b :: b in r <==> b in books && b.isAvailable
  {
    Seqs.Filter(books, (b: Book) => b.isAvailable)
  }

  function CategoryColumn(a: seq<Book>): (r: seq<string>)
    ensures forall c :: c in r <==> exists b :: b in a && b.category == c
  {
    var column := seq(|a|, i requires 0 <= i < |a| => a[i].category);
    assert forall c :: c in column <==> exists b :: b in a && b.category == c by {
      forall c | c in column ensures exists b :: b in a && b.category == c {
        var i :| 0 <= i < |column| && column[i] == c;
        assert a[i] in a;
      }
      forall c | exists b :: b in a && b.category == c ensures c in column {
        var b :| b in a && b.category == c;
        var i :| 0 <= i < |a| && a[i] == b;
        assert column[i] == c;
      }
    }
    column
  }

  function AuthorColumn(a: seq<Book>): (r: seq<string>)
    ensures forall w :: w in r <==> exists b :: b in a && b.author == w
  {
    var column := seq(|a|, i requires 0 <= i < |a| => a[i].author);
    assert forall w :: w in column <==> exists b :: b in a && b.author == w by {
      forall w | w in column ensures exists b :: b in a && b.author == w {
        var i :| 0 <= i < |column| && column[i] == w;
        assert a[i] in a;
      }
      forall w | exists b :: b in a && b.author == w ensures w in column {
        var b :| b in a && b.author == w;
        var i :| 0 <= i < |a| && a[i] == b;
        assert column[i] == w;
      }
    }
    column
  }

  function YearColumn(a: seq<Book>): (r: seq<int>)
    ensures forall y :: y in r <==> exists b :: b in a && b.year == y
  {
    var column := seq(|a|, i requires 0 <= i < |a| => a[i].year);
    assert forall y :: y in column <==> exists b :: b in a && b.year == y by {
      forall y | y in column ensures exists b :: b in a && b.year == y {
        var i :| 0 <= i < |column| && column[i] == y;
        assert a[i] in a;
      }
      forall y | exists b :: b in a && b.year == y ensures y in column {
        var b :| b in a && b.year == y;
        var i :| 0 <= i < |a| && a[i] == b;
        assert column[i] == y;
      }
    }
    column
  }

  /** The category options: each category of an available book, once. */
  function Categories(books: seq<Book>): (r: seq<string>)
    ensures Seqs.NoDuplicates(r)
    ensures forall c :: c in r <==> exists b :: b in books && b.isAvailable && b.category == c
  {
    Seqs.Distinct(CategoryColumn(Available(books)))
  }

  /** The author options: each author of an available book, once. */
  function Authors(books: seq<Book>): (r: seq<string>)
    ensures Seqs.NoDuplicates(r)
    ensures forall w :: w in r <==> exists b :: b in books && b.isAvailable && b.author == w
  {
    Seqs.Distinct(AuthorColumn(Available(books)))
  }

  function YearKey(y: int): int
  {
    y
  }

  /** Drops repeats from a list sorted newest first. */
  function DedupSorted(s: seq<int>): (r: seq<int>)
    requires SortedDescBy(s, YearKey)
    ensures forall x :: x in r <==> x in s
    ensures forall i, j :: 0 <= i < j < |r| ==> r[i] > r[j]
  {
    if |s| <= 1 then s
    else
      var rest := DedupSorted(s[1..]);
      if s[0] == s[1] then rest
      else
        HeadAboveTail(s, rest);
        ConsStrictlyDesc(s[0], rest);
        [s[0]] + rest
  }

  /** In a list sorted newest first whose first two values differ, the
      first value is above every later one. */
  lemma HeadAboveTail(s: seq<int>, rest: seq<int>)
    requires SortedDescBy(s, YearKey) && |s| >= 2 && s[0] != s[1]
    requires forall x :: x in rest <==> x in s[1..]
    ensures forall y :: y in rest ==> s[0] > y
  {
    forall y | y in rest ensures s[0] > y {
      var k :| 0 <= k < |s[1..]| && s[1..][k] == y;
      assert YearKey(s[0]) >= YearKey(s[k + 1]);
    }
  }

  /** A value above every value of a strictly descending list can go in front. */
  lemma ConsStrictlyDesc(h: int, rest: seq<int>)
    requires forall i, j :: 0 <= i < j < |rest| ==> rest[i] > rest[j]
    requires forall y :: y in rest ==> h > y
    ensures forall i, j :: 0 <= i < j < |[h] + rest| ==> ([h] + rest)[i] > ([h] + rest)[j]
  {
    var r := [h] + rest;
    forall i, j | 0 <= i < j < |r| ensures r[i] > r[j] {
      assert r[j] == rest[j - 1] && rest[j - 1] in rest;
      if i > 0 {
        assert r[i] == rest[i - 1];
      }
    }
  }

  /** The year options: each year of an available book, once, newest first. */
  function Years(books: seq<Book>): (r: seq<int>)
    ensures forall i, j :: 0 <= i < j < |r| ==> r[i] > r[j]
    ensures forall y :: y in r <==> exists b :: b in books && b.isAvailable && b.year == y
  {
    var column := YearColumn(Available(books));
    var sorted := SortDescBy(column, YearKey);
    PermutationMembers(sorted, column);
    DedupSorted(sorted)
  }
}
