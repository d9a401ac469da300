/** The flat-file record codec: Go's `strings.Split` on one separator,
    `strconv.Atoi` (errors discarded), decimal printing, and the three
    `;`-separated record layouts. */
module Codec {
  import opened Types

  // ---------------------------------------------------------------------
  // Splitting and joining on a one-character separator

  /** The position of the first `sep` in `s`, or `|s|` when there is none. */
  function Find(s: string, sep: char): (k: nat)
    ensures k <= |s| && (k < |s| ==> s[k] == sep)
    ensures forall i :: 0 <= i < k ==> s[i] != sep
  {
    if |s| == 0 || s[0] == sep then 0 else 1 + Find(s[1..], sep)
  }

  /** `strings.Split(s, string(sep))`: the text before the first separator,
      then the split of the rest; never empty, `Split("", sep) == [""]`. */
  function Split(s: string, sep: char): (r: seq<string>)
    ensures |r| >= 1
    decreases |s|
  {
    var k := Find(s, sep);
    if k == |s| then [s] else [s[..k]] + Split(s[k + 1..], sep)
  }

  /** `strings.Join(fields, string(sep))`. */
  function Join(fields: seq<string>, sep: char): string
    requires |fields| >= 1
  {
    if |fields| == 1 then fields[0] else fields[0] + [sep] + Join(fields[1..], sep)
  }

  /** Any separator with none before it is the first one (and `|s|` when there is none). */
  lemma FindFirst(s: string, sep: char, k: nat)
    requires k <= |s| && (k < |s| ==> s[k] == sep)
    requires forall i :: 0 <= i < k ==> s[i] != sep
    ensures Find(s, sep) == k
  {
  }

  lemma SplitNoSeparator(s: string, sep: char)
    requires sep !in s
    ensures Split(s, sep) == [s]
  {
    FindFirst(s, sep, |s|);
  }

  lemma AppendAssoc<T>(a: seq<T>, b: seq<T>, c: seq<T>)
    ensures a + (b + c) == (a + b) + c
  {
  }

  lemma HeadTail<T>(xs: seq<T>)
    requires |xs| > 0
    ensures xs == [xs[0]] + xs[1..]
  {
  }

  lemma ConsTail<T>(x: T, xs: seq<T>)
    ensures ([x] + xs)[0] == x && ([x] + xs)[1..] == xs
  {
  }

  /** Splitting distributes over a separator occurrence. */
  lemma {:induction false} SplitAround(x: string, y: string, sep: char)
    ensures Split(x + [sep] + y, sep) == Split(x, sep) + Split(y, sep)
    decreases |x|
  {
    var s := x + [sep] + y;
    var k := Find(x, sep);
    assert forall i :: 0 <= i < |x| ==> s[i] == x[i];
    if k == |x| {
      assert s[|x|] == sep;
      FindFirst(s, sep, |x|);
      assert s[..|x|] == x && s[|x| + 1..] == y;
      assert Split(s, sep) == [x] + Split(y, sep);
      assert Split(x, sep) == [x];
    } else {
      FindFirst(s, sep, k);
      assert s[..k] == x[..k];
      assert s[k + 1..] == x[k + 1..] + [sep] + y;
      SplitAround(x[k + 1..], y, sep);
      var r, q := Split(x[k + 1..], sep), Split(y, sep);
      assert Split(s, sep) == [x[..k]] + (r + q);
      assert Split(x, sep) == [x[..k]] + r;
      AppendAssoc([x[..k]], r, q);
    }
  }

  /** Joining then splitting gives the fields back when no field holds the separator. */
  lemma {:induction false} SplitJoin(fields: seq<string>, sep: char)
    requires |fields| >= 1
    requires forall i :: 0 <= i < |fields| ==> sep !in fields[i]
    ensures Split(Join(fields, sep), sep) == fields
    decreases |fields|
  {
    if |fields| == 1 {
      SplitNoSeparator(fields[0], sep);
    } else {
      var rest := fields[1..];
      assert forall i :: 0 <= i < |rest| ==> sep !in rest[i] by {
        forall i | 0 <= i < |rest| ensures rest[i] == fields[i + 1] { }
      }
      SplitJoin(rest, sep);
      SplitAround(fields[0], Join(rest, sep), sep);
      SplitNoSeparator(fields[0], sep);
      HeadTail(fields);
    }
  }

  /** Splitting then joining gives the string back. */
  lemma {:induction false} JoinSplit(s: string, sep: char)
    ensures Join(Split(s, sep), sep) == s
    decreases |s|
  {
    var k := Find(s, sep);
    if k < |s| {
      var rest := Split(s[k + 1..], sep);
      JoinSplit(s[k + 1..], sep);
      assert ([s[..k]] + rest)[1..] == rest;
      assert s == s[..k] + [sep] + s[k + 1..];
    }
  }

  // ---------------------------------------------------------------------
  // Decimal numbers

  const MaxUint64: int := 0xffff_ffff_ffff_ffff

  predicate IsDigit(c: char) { '0' <= c <= '9' }

  function DigitValue(c: char): nat
    requires IsDigit(c)
  {
    c as int - '0' as int
  }

  function DigitChar(d: nat): (c: char)
    requires d < 10
    ensures IsDigit(c) && DigitValue(c) == d
  {
    ('0' as int + d) as char
  }

  /** Outcome of `strconv.ParseUint(s, 10, 64)`. */
  datatype Scanned = Syntax | Range | Value(n: nat)

  /** ParseUint's digit loop with accumulator `n`, left to right: a non-digit
      is a syntax error, a step past 2^64-1 is a range error, whichever comes first. */
  function ScanDigits(s: string, n: nat): Scanned
    decreases |s|
  {
    if |s| == 0 then Value(n)
    else if !IsDigit(s[0]) then Syntax
    else if n * 10 + DigitValue(s[0]) > MaxUint64 then Range
    else ScanDigits(s[1..], n * 10 + DigitValue(s[0]))
  }

  /** `strconv.Atoi` with its error discarded: 0 on a syntax error, the value
      clamped to int64 on a range error. */
  function Atoi(s: string): (r: int64)
    ensures (forall i :: 0 <= i < |s| ==> !IsDigit(s[i])) ==> r == 0
  {
    if |s| == 0 then 0
    else
      var neg := s[0] == '-';
      var digits := if s[0] == '-' || s[0] == '+' then s[1..] else s;
      if |digits| == 0 then 0
      else
        match ScanDigits(digits, 0)
        case Syntax => 0
        case Range => if neg then MinInt64 else MaxInt64
        case Value(u) =>
          var v: int := if neg then 0 - u as int else u;
          if v > MaxInt64 then MaxInt64 else if v < MinInt64 then MinInt64 else v
  }

  /** Decimal digits of a natural number, most significant first. */
  function NatToString(n: nat): (r: string)
    ensures |r| >= 1
    ensures forall i :: 0 <= i < |r| ==> IsDigit(r[i])
    decreases n
  {
    if n < 10 then [DigitChar(n)] else NatToString(n / 10) + [DigitChar(n % 10)]
  }

  /** `fmt.Sprint` of an integer. */
  function Itoa(n: int): (r: string)
    ensures |r| >= 1 && (r[0] == '-' <==> n < 0)
    ensures forall i :: 0 <= i < |r| ==> IsDigit(r[i]) || (i == 0 && n < 0)
  {
    if n < 0 then "-" + NatToString(-n) else NatToString(n)
  }

  lemma {:induction false} ScanConcat(a: string, b: string, n: nat)
    requires ScanDigits(a, n).Value?
    ensures ScanDigits(a + b, n) == ScanDigits(b, ScanDigits(a, n).n)
    decreases |a|
  {
    if |a| != 0 {
      assert (a + b)[1..] == a[1..] + b;
      ScanConcat(a[1..], b, n * 10 + DigitValue(a[0]));
    } else {
      assert a + b == b;
    }
  }

  lemma {:induction false} ScanNatToString(n: nat)
    requires n <= MaxUint64
    ensures ScanDigits(NatToString(n), 0) == Value(n)
    decreases n
  {
    if n >= 10 {
      ScanNatToString(n / 10);
      ScanConcat(NatToString(n / 10), [DigitChar(n % 10)], 0);
    }
  }

  /** `Atoi` inverts decimal printing on every int64. */
  lemma AtoiItoa(n: int64)
    ensures Atoi(Itoa(n)) == n
  {
    if n < 0 {
      var m: nat := -(n as int);
      ScanNatToString(m);
      assert Itoa(n)[1..] == NatToString(m);
    } else {
      ScanNatToString(n);
    }
  }

  /** Printed numbers carry no separator of the dump formats. */
  lemma ItoaHasNoSeparator(n: int, c: char)
    requires !IsDigit(c) && c != '-'
    ensures c !in Itoa(n)
  {
  }

  // ---------------------------------------------------------------------
  // Records

  /** A field may be written verbatim when it holds neither separator. */
  predicate Clean(s: string) { ';' !in s && '\n' !in s }

  /** `id;phone;balance` */
  function AccountFields(a: Account): seq<string> { [Itoa(a.id), a.phone, Itoa(a.balance)] }
  function AccountToString(a: Account): string { Join(AccountFields(a), ';') }

  /** `id;accountID;amount;category;status` */
  function PaymentFields(p: Payment): seq<string>
  {
    [p.id, Itoa(p.accountID), Itoa(p.amount), p.category, p.status]
  }
  function PaymentToString(p: Payment): string { Join(PaymentFields(p), ';') }

  /** `id;accountID;name;amount;category` */
  function FavoriteFields(f: Favorite): seq<string>
  {
    [f.id, Itoa(f.accountID), f.name, Itoa(f.amount), f.category]
  }
  function FavoriteToString(f: Favorite): string { Join(FavoriteFields(f), ';') }

  /** The field positions read by the account import. */
  function ParseAccount(fields: seq<string>): Account
    requires |fields| >= 3
  {
    Account(Atoi(fields[0]), fields[1], Atoi(fields[2]))
  }

  /** The field positions read by the payment import. */
  function ParsePayment(fields: seq<string>): Payment
    requires |fields| >= 5
  {
    Payment(fields[0], Atoi(fields[1]), Atoi(fields[2]), fields[3], fields[4])
  }

  /** The field positions read by the favorite import. */
  function ParseFavorite(fields: seq<string>): Favorite
    requires |fields| >= 5
  {
    Favorite(fields[0], Atoi(fields[1]), fields[2], Atoi(fields[3]), fields[4])
  }

  predicate CleanAccount(a: Account) { Clean(a.phone) }
  predicate CleanPayment(p: Payment) { Clean(p.id) && Clean(p.category) && Clean(p.status) }
  predicate CleanFavorite(f: Favorite) { Clean(f.id) && Clean(f.name) && Clean(f.category) }

  /** No field of a clean record holds either separator. */
  lemma CleanFields(fs: seq<string>)
    requires forall i :: 0 <= i < |fs| ==> Clean(fs[i])
    ensures forall i :: 0 <= i < |fs| ==> ';' !in fs[i]
    ensures forall i :: 0 <= i < |fs| ==> '\n' !in fs[i]
  {
  }

  lemma AccountRoundTrip(a: Account)
    requires CleanAccount(a)
    ensures '\n' !in AccountToString(a)
    ensures |Split(AccountToString(a), ';')| == 3
    ensures ParseAccount(Split(AccountToString(a), ';')) == a
  {
    var fs := AccountFields(a);
    assert Clean(Itoa(a.id)) && Clean(Itoa(a.balance)) by {
      ItoaHasNoSeparator(a.id, ';');
      ItoaHasNoSeparator(a.id, '\n');
      ItoaHasNoSeparator(a.balance, ';');
      ItoaHasNoSeparator(a.balance, '\n');
    }
    CleanFields(fs);
    JoinHasNo(fs, ';', '\n');
    SplitJoin(fs, ';');
    AtoiItoa(a.id);
    AtoiItoa(a.balance);
  }

  lemma PaymentRoundTrip(p: Payment)
    requires CleanPayment(p)
    ensures '\n' !in PaymentToString(p)
    ensures |Split(PaymentToString(p), ';')| == 5
    ensures ParsePayment(Split(PaymentToString(p), ';')) == p
  {
    var fs := PaymentFields(p);
    assert Clean(Itoa(p.accountID)) && Clean(Itoa(p.amount)) by {
      ItoaHasNoSeparator(p.accountID, ';');
      ItoaHasNoSeparator(p.accountID, '\n');
      ItoaHasNoSeparator(p.amount, ';');
      ItoaHasNoSeparator(p.amount, '\n');
    }
    CleanFields(fs);
    JoinHasNo(fs, ';', '\n');
    SplitJoin(fs, ';');
    AtoiItoa(p.accountID);
    AtoiItoa(p.amount);
  }

  lemma FavoriteRoundTrip(f: Favorite)
    requires CleanFavorite(f)
    ensures '\n' !in FavoriteToString(f)
    ensures |Split(FavoriteToString(f), ';')| == 5
    ensures ParseFavorite(Split(FavoriteToString(f), ';')) == f
  {
    var fs := FavoriteFields(f);
    assert Clean(Itoa(f.accountID)) && Clean(Itoa(f.amount)) by {
      ItoaHasNoSeparator(f.accountID, ';');
      ItoaHasNoSeparator(f.accountID, '\n');
      ItoaHasNoSeparator(f.amount, ';');
      ItoaHasNoSeparator(f.amount, '\n');
    }
    CleanFields(fs);
    JoinHasNo(fs, ';', '\n');
    SplitJoin(fs, ';');
    AtoiItoa(f.accountID);
    AtoiItoa(f.amount);
  }

  lemma {:induction false} JoinHasNo(fields: seq<string>, sep: char, c: char)
    requires |fields| >= 1 && c != sep
    requires forall i :: 0 <= i < |fields| ==> c !in fields[i]
    ensures c !in Join(fields, sep)
    decreases |fields|
  {
    if |fields| > 1 {
      JoinHasNo(fields[1..], sep, c);
    }
  }

  // ---------------------------------------------------------------------
  // Whole files: one record per line, each line ended by a terminator

  /** What a `strings.Builder` holds after writing `show(x) + term` for each x in order. */
  function Text<T>(xs: seq<T>, show: T -> string, term: char): string
  {
    if |xs| == 0 then "" else Text(xs[..|xs| - 1], show, term) + show(xs[|xs| - 1]) + [term]
  }

  function Lines<T>(xs: seq<T>, show: T -> string): (r: seq<string>)
    ensures |r| == |xs| && forall i :: 0 <= i < |xs| ==> r[i] == show(xs[i])
  {
    seq(|xs|, i requires 0 <= i < |xs| => show(xs[i]))
  }

  /** Splitting a written file on its terminator yields its lines, then whatever follows. */
  lemma {:induction false} SplitText<T>(xs: seq<T>, show: T -> string, term: char, y: string)
    requires forall i :: 0 <= i < |xs| ==> term !in show(xs[i])
    ensures Split(Text(xs, show, term) + y, term) == Lines(xs, show) + Split(y, term)
    decreases |xs|
  {
    if |xs| != 0 {
      var init := xs[..|xs| - 1];
      var last := show(xs[|xs| - 1]);
      assert Text(xs, show, term) + y == Text(init, show, term) + (last + [term] + y);
      SplitText(init, show, term, last + [term] + y);
      SplitLine(Text(init, show, term), Lines(init, show), last, term, y);
      assert Lines(xs, show) == Lines(init, show) + [last];
    } else {
      assert Text(xs, show, term) + y == y;
    }
  }

  /** One more line: `text` splits into `lines` before `last`, which holds no terminator. */
  lemma SplitLine(text: string, lines: seq<string>, last: string, term: char, y: string)
    requires term !in last
    requires Split(text + (last + [term] + y), term) == lines + Split(last + [term] + y, term)
    ensures Split(text + (last + [term] + y), term) == (lines + [last]) + Split(y, term)
  {
    SplitAround(last, y, term);
    SplitNoSeparator(last, term);
  }

  /** A whole file splits into its lines and one empty trailing piece. */
  lemma SplitFile<T>(xs: seq<T>, show: T -> string, term: char)
    requires forall i :: 0 <= i < |xs| ==> term !in show(xs[i])
    ensures Split(Text(xs, show, term), term) == Lines(xs, show) + [""]
  {
    SplitText(xs, show, term, "");
    assert Text(xs, show, term) + "" == Text(xs, show, term);
  }
}
