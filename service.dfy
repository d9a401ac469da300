/** The wallet service object: a counter and three insertion-ordered
    collections that its methods scan and update in place. Each method is
    proved to change the state exactly as the matching function of `Store`,
    `Persistence` or `History` says. */
module Wallet {
  import opened Types
  import opened Scan
  import opened Codec
  import opened Store
  import opened History
  import opened Persistence
  import opened Partition

  class Service {
    var nextAccountID: int64
    var accounts: seq<Account>
    var payments: seq<Payment>
    var favorites: seq<Favorite>

    /** The zero-valued service. */
    constructor ()
      ensures State() == Empty
    {
      nextAccountID := 0;
      accounts := [];
      payments := [];
      favorites := [];
    }

    function State(): Ledger
      reads this
    {
      Ledger(nextAccountID, accounts, payments, favorites)
    }

    // -------------------------------------------------------------------
    // Lookups

    /** The index of the first account with `accountID`. */
    method FindAccountByID(accountID: int64) returns (r: Result<nat>)
      ensures r.Err? <==> !Has(accounts, AccountID, accountID)
      ensures r.Err? ==> r.error == AccountNotFound
      ensures r.Ok? ==> r.value < |accounts| && accounts[r.value].id == accountID
      ensures r.Ok? ==> forall j :: 0 <= j < r.value ==> accounts[j].id != accountID
    {
      for i := 0 to |accounts|
        invariant forall j :: 0 <= j < i ==> accounts[j].id != accountID
      {
        if accounts[i].id == accountID {
          return Ok(i);
        }
      }
      return Err(AccountNotFound);
    }

    /** The index of the first payment with `paymentID`. */
    method FindPaymentByID(paymentID: string) returns (r: Result<nat>)
      ensures r.Err? <==> !Has(payments, PaymentID, paymentID)
      ensures r.Err? ==> r.error == PaymentNotFound
      ensures r.Ok? ==> r.value < |payments| && payments[r.value].id == paymentID
      ensures r.Ok? ==> forall j :: 0 <= j < r.value ==> payments[j].id != paymentID
    {
      for i := 0 to |payments|
        invariant forall j :: 0 <= j < i ==> payments[j].id != paymentID
      {
        if payments[i].id == paymentID {
          return Ok(i);
        }
      }
      return Err(PaymentNotFound);
    }

    /** The index of the first favorite with `favoriteID`. */
    method FindFavoriteByID(favoriteID: string) returns (r: Result<nat>)
      ensures r.Err? <==> !Has(favorites, FavoriteID, favoriteID)
      ensures r.Err? ==> r.error == FavoriteNotFound
      ensures r.Ok? ==> r.value < |favorites| && favorites[r.value].id == favoriteID
      ensures r.Ok? ==> forall j :: 0 <= j < r.value ==> favorites[j].id != favoriteID
    {
      for i := 0 to |favorites|
        invariant forall j :: 0 <= j < i ==> favorites[j].id != favoriteID
      {
        if favorites[i].id == favoriteID {
          return Ok(i);
        }
      }
      return Err(FavoriteNotFound);
    }

    /** The last account with `accountID`, as the deposit and payment scans
        find it. */
    method ScanAccounts(accountID: int64) returns (found: Option<nat>)
      ensures found == LastIndex(accounts, AccountID, accountID)
    {
      found := None;
      for i := 0 to |accounts|
        invariant found == LastIndex(accounts[..i], AccountID, accountID)
      {
        assert accounts[..i + 1][..i] == accounts[..i];
        if accounts[i].id == accountID {
          found := Some(i);
        }
      }
      assert accounts[..|accounts|] == accounts;
    }

    // -------------------------------------------------------------------
    // Operations on accounts, payments and favorites

    method RegisterAccount(phone: string) returns (r: Result<Account>)
      modifies this
      ensures Step(State(), r) == Store.RegisterAccount(old(State()), phone)
    {
      for i := 0 to |accounts|
        invariant forall j :: 0 <= j < i ==> accounts[j].phone != phone
      {
        if accounts[i].phone == phone {
          assert AccountPhone(accounts[i]) == phone;
          return Err(PhoneRegistered);
        }
      }
      nextAccountID := Add64(nextAccountID, 1);
      var account := Account(nextAccountID, phone, 0);
      accounts := accounts + [account];
      r := Ok(account);
    }

    method Deposit(accountID: int64, amount: int64) returns (r: Result<()>)
      modifies this
      ensures Step(State(), r) == Store.Deposit(old(State()), accountID, amount)
    {
      if amount <= 0 {
        return Err(AmountMustBePositive);
      }
      var found := ScanAccounts(accountID);
      if found.None? {
        return Err(AccountNotFound);
      }
      var i := found.value;
      accounts := accounts[i := accounts[i].(balance := Add64(accounts[i].balance, amount))];
      r := Ok(());
    }

    /** `paymentID` stands for the fresh ID the source draws. */
    method Pay(accountID: int64, amount: int64, category: string, paymentID: string) returns (r: Result<Payment>)
      modifies this
      ensures Step(State(), r) == Store.Pay(old(State()), accountID, amount, category, paymentID)
    {
      if amount <= 0 {
        return Err(AmountMustBePositive);
      }
      var found := ScanAccounts(accountID);
      if found.None? {
        return Err(AccountNotFound);
      }
      var i := found.value;
      if accounts[i].balance < amount {
        return Err(NotEnoughBalance);
      }
      accounts := accounts[i := accounts[i].(balance := accounts[i].balance - amount)];
      var payment := Payment(paymentID, accountID, amount, category, StatusInProgress);
      payments := payments + [payment];
      r := Ok(payment);
    }

    method Reject(paymentID: string) returns (r: Result<()>)
      modifies this
      ensures Step(State(), r) == Store.Reject(old(State()), paymentID)
    {
      var p := FindPaymentByID(paymentID);
      if p.Err? {
        return Err(p.error);
      }
      var payment := payments[p.value];
      var a := FindAccountByID(payment.accountID);
      if a.Err? {
        return Err(a.error);
      }
      payments := payments[p.value := payment.(status := StatusFail)];
      accounts := accounts[a.value := accounts[a.value].(balance := Add64(accounts[a.value].balance, payment.amount))];
      r := Ok(());
    }

    method Repeat(paymentID: string, newID: string) returns (r: Result<Payment>)
      modifies this
      ensures Step(State(), r) == Store.Repeat(old(State()), paymentID, newID)
    {
      var p := FindPaymentByID(paymentID);
      if p.Err? {
        return Err(p.error);
      }
      var payment := payments[p.value];
      r := Pay(payment.accountID, payment.amount, payment.category, newID);
    }

    /** `favoriteID` stands for the fresh ID the source draws. */
    method FavoritePayment(paymentID: string, name: string, favoriteID: string) returns (r: Result<Favorite>)
      modifies this
      ensures Step(State(), r) == Store.FavoritePayment(old(State()), paymentID, name, favoriteID)
    {
      for i := 0 to |favorites|
        invariant forall j :: 0 <= j < i ==> favorites[j].name != name
      {
        if favorites[i].name == name {
          assert FavoriteName(favorites[i]) == name;
          return Err(FavoriteRegistered);
        }
      }
      var p := FindPaymentByID(paymentID);
      if p.Err? {
        return Err(p.error);
      }
      var payment := payments[p.value];
      var favorite := Favorite(favoriteID, payment.accountID, name, payment.amount, payment.category);
      favorites := favorites + [favorite];
      r := Ok(favorite);
    }

    method PayFromFavorite(favoriteID: string, paymentID: string) returns (r: Result<Payment>)
      modifies this
      ensures Step(State(), r) == Store.PayFromFavorite(old(State()), favoriteID, paymentID)
    {
      var f := FindFavoriteByID(favoriteID);
      if f.Err? {
        return Err(f.error);
      }
      var favorite := favorites[f.value];
      r := Pay(favorite.accountID, favorite.amount, favorite.category, paymentID);
    }

    method ExportAccountHistory(accountID: int64) returns (r: Result<seq<Payment>>)
      ensures r == Store.ExportAccountHistory(State(), accountID)
    {
      var a := FindAccountByID(accountID);
      if a.Err? {
        return Err(a.error);
      }
      var owner := accounts[a.value].id;
      var history := [];
      for i := 0 to |payments|
        invariant history == Filter(payments[..i], BelongsTo(owner))
      {
        assert payments[..i + 1][..i] == payments[..i];
        if payments[i].accountID == owner {
          history := history + [payments[i]];
        }
      }
      assert payments[..|payments|] == payments;
      r := Ok(history);
    }

    // -------------------------------------------------------------------
    // Snapshots

    /** The text of the single-file snapshot. */
    method ExportToFile() returns (content: string)
      ensures content == SnapshotText(accounts)
    {
      content := "";
      for i := 0 to |accounts|
        invariant content == Text(accounts[..i], AccountToString, '|')
      {
        assert accounts[..i + 1][..i] == accounts[..i];
        content := content + AccountToString(accounts[i]) + "|";
      }
      assert accounts[..|accounts|] == accounts;
    }

    method ImportFromFile(content: string) returns (r: Result<()>)
      requires Restorable(State(), Split(content, '|'))
      modifies this
      ensures Step(State(), r) == Persistence.ImportFromFile(old(State()), content)
    {
      var records := Split(content, '|');
      for i := 0 to |records|
        invariant Restorable(State(), records[i..])
        invariant RestoreAccounts(State(), records[i..]) == RestoreAccounts(old(State()), records)
      {
        assert records[i..][0] == records[i] && records[i..][1..] == records[i + 1..];
        var fields := Split(records[i], ';');
        if |fields| < 2 {
          continue;
        }
        var reg := RegisterAccount(fields[1]);
        if reg.Err? {
          return Err(reg.error);
        }
        var dep := Deposit(reg.value.id, Atoi(fields[2]));
        if dep.Err? {
          return Err(dep.error);
        }
      }
      r := Ok(());
    }

    method WriteText<T>(xs: seq<T>, show: T -> string) returns (data: string)
      ensures data == Text(xs, show, '\n')
    {
      data := "";
      for i := 0 to |xs|
        invariant data == Text(xs[..i], show, '\n')
      {
        assert xs[..i + 1][..i] == xs[..i];
        data := data + show(xs[i]) + "\n";
      }
      assert xs[..|xs|] == xs;
    }

    /** The dump files written to the directory, in the order written. */
    method Export() returns (dir: seq<DumpFile>)
      ensures dir == ExportFiles(State())
    {
      dir := [];
      if |accounts| > 0 {
        var data := WriteText(accounts, AccountToString);
        dir := dir + [DumpFile("accounts.dump", data)];
      }
      if |favorites| > 0 {
        var data := WriteText(favorites, FavoriteToString);
        dir := dir + [DumpFile("favorites.dump", data)];
      }
      if |payments| > 0 {
        var data := WriteText(payments, PaymentToString);
        dir := dir + [DumpFile("payments.dump", data)];
      }
    }

    method ImportAccounts(lines: seq<string>)
      requires LinesFit(lines, 3)
      modifies this
      ensures State() == ImportAccountLines(old(State()), lines)
    {
      for i := 0 to |lines|
        invariant State() == ImportAccountLines(old(State()), lines[..i])
      {
        ghost var prev := State();
        assert ImportAccountLines(old(State()), lines[..i + 1]) == ImportAccountLine(prev, lines[i]) by {
          assert lines[..i + 1][..i] == lines[..i];
        }
        var fields := Split(lines[i], ';');
        if |fields| < 2 {
          continue;
        }
        assert Fits(lines[i], 3);
        var a := ParseAccount(fields);
        var found := FindAccountByID(a.id);
        if found.Err? {
          assert ImportAccountLine(prev, lines[i]) == prev.(accounts := accounts + [a], nextAccountID := a.id) by {
            assert FirstIndex(accounts, AccountID, a.id) == None;
          }
          accounts := accounts + [a];
          nextAccountID := a.id;
        } else {
          ghost var j := found.value;
          assert ImportAccountLine(prev, lines[i])
              == prev.(accounts := accounts[j := accounts[j].(phone := a.phone, balance := a.balance)]) by {
            assert FirstIndex(accounts, AccountID, a.id) == Some(j);
          }
          accounts := accounts[found.value := accounts[found.value].(phone := a.phone, balance := a.balance)];
        }
      }
      assert lines[..|lines|] == lines;
    }

    method ImportPayments(lines: seq<string>)
      requires LinesFit(lines, 5)
      modifies this
      ensures State() == ImportPaymentLines(old(State()), lines)
    {
      for i := 0 to |lines|
        invariant State() == ImportPaymentLines(old(State()), lines[..i])
      {
        assert lines[..i + 1][..i] == lines[..i];
        var fields := Split(lines[i], ';');
        if |fields| < 2 {
          continue;
        }
        assert Fits(lines[i], 5);
        var p := ParsePayment(fields);
        var found := FindPaymentByID(p.id);
        if found.Ok? {
          assert FirstIndex(payments, PaymentID, p.id) == Some(found.value);
          payments := payments[found.value := p];
          continue;
        }
        payments := payments + [p];
      }
      assert lines[..|lines|] == lines;
    }

    method ImportFavorites(lines: seq<string>, freshIDs: seq<string>)
      requires LinesFit(lines, 5) && |freshIDs| >= |lines|
      modifies this
      ensures State() == ImportFavoriteLines(old(State()), lines, freshIDs)
    {
      for i := 0 to |lines|
        invariant State() == ImportFavoriteLines(old(State()), lines[..i], freshIDs)
      {
        assert lines[..i + 1][..i] == lines[..i];
        var fields := Split(lines[i], ';');
        if |fields| < 2 {
          continue;
        }
        assert Fits(lines[i], 5);
        var f := ParseFavorite(fields);
        var found := FindFavoriteByID(f.id);
        if found.Ok? {
          assert FirstIndex(favorites, FavoriteID, f.id) == Some(found.value);
          favorites := favorites[found.value := f.(id := favorites[found.value].id)];
          continue;
        }
        favorites := favorites + [f.(id := freshIDs[i])];
      }
      assert lines[..|lines|] == lines;
    }

    /** Reads the three dump files of `dir` ("" for a missing one) and
        upserts their records; `freshIDs[i]` is the ID drawn for a new
        favorite on line `i`. */
    method Import(dir: seq<DumpFile>, freshIDs: seq<string>)
      requires WellFormed(ReadDump(dir, "accounts.dump"), '\n', 3)
      requires WellFormed(ReadDump(dir, "payments.dump"), '\n', 5)
      requires WellFormed(ReadDump(dir, "favorites.dump"), '\n', 5)
      requires |freshIDs| >= |Split(ReadDump(dir, "favorites.dump"), '\n')|
      modifies this
      ensures State() == Persistence.Import(old(State()), ReadDump(dir, "accounts.dump"),
                                            ReadDump(dir, "payments.dump"), ReadDump(dir, "favorites.dump"), freshIDs)
    {
      ImportAccounts(Split(ReadDump(dir, "accounts.dump"), '\n'));
      ImportPayments(Split(ReadDump(dir, "payments.dump"), '\n'));
      ImportFavorites(Split(ReadDump(dir, "favorites.dump"), '\n'), freshIDs);
    }

    // -------------------------------------------------------------------
    // History files

    /** The files written for `ps` with at most `records` lines per file:
        none for no payments, one `payments.dump` when all fit, otherwise
        the pages numbered from 1. */
    method HistoryToFiles(ps: seq<Payment>, records: int) returns (files: seq<DumpFile>)
      ensures |ps| == 0 ==> files == []
      ensures 0 < |ps| <= records ==> files == [DumpFile("payments.dump", HistoryText(ps))]
      ensures |ps| > 0 && |ps| > records ==> files == PageFiles(Paginate(ps, records))
    {
      files := [];
      if |ps| > 0 {
        if |ps| <= records {
          var data := WriteText(ps, PaymentToString);
          files := [DumpFile("payments.dump", data)];
        } else {
          files := WritePages(ps, records);
        }
      }
    }

    /** The `k`/`t` loop: `k` counts the lines in the open file, `t` numbers it. */
    method WritePages(ps: seq<Payment>, records: int) returns (files: seq<DumpFile>)
      ensures files == PageFiles(Paginate(ps, records))
    {
      files := [];
      var k := 0;
      var t := 1;
      for i := 0 to |ps|
        invariant files == PageFiles(Paginate(ps[..i], records))
        invariant Counters(Paginate(ps[..i], records), records, k, t)
      {
        ghost var pages := Paginate(ps[..i], records);
        assert Paginate(ps[..i + 1], records) == NextPage(pages, ps[i], records) by {
          assert ps[..i + 1][..i] == ps[..i];
        }
        CountersStep(pages, records, k, t, ps[i]);
        PageFilesStep(pages, records, k, t, files, ps[i]);
        var line := PaymentToString(ps[i]);
        if k == 0 {
          files := files + [DumpFile("payments" + Itoa(t) + ".dump", "")];
        }
        var last := files[|files| - 1];
        files := files[|files| - 1 := last.(content := last.content + line + "\n")];
        k := k + 1;
        if k == records {
          t := t + 1;
          k := 0;
        }
      }
      assert ps[..|ps|] == ps;
    }

    // -------------------------------------------------------------------
    // Sums and filters over worker windows

    /** What one worker adds up: the amounts of `payments[lo..hi]`, in int64. */
    method SumWindow(lo: nat, hi: nat) returns (res: int64)
      requires lo <= hi <= |payments|
      ensures res == Wrap64(Total(payments[lo..hi]))
    {
      var window := payments[lo..hi];
      res := 0;
      for j := 0 to |window|
        invariant res == Wrap64(Total(window[..j]))
      {
        assert window[..j + 1][..j] == window[..j];
        WrapAdd(Total(window[..j]), window[j].amount);
        res := Add64(res, window[j].amount);
      }
      assert window[..|window|] == window;
    }

    /** What one worker collects: the payments of `payments[lo..hi]` that pass `filter`. */
    method FilterWindow(lo: nat, hi: nat, filter: Payment -> bool) returns (res: seq<Payment>)
      requires lo <= hi <= |payments|
      ensures res == Filter(payments[lo..hi], filter)
    {
      var window := payments[lo..hi];
      res := [];
      for j := 0 to |window|
        invariant res == Filter(window[..j], filter)
      {
        assert window[..j + 1][..j] == window[..j];
        if filter(window[j]) {
          res := res + [window[j]];
        }
      }
      assert window[..|window|] == window;
    }

    /** The workers `0 .. g - 1`, one after another: each adds up its window
        `[i * len1, (i + 1) * len1)` and its result is added to `sum`. */
    method SumWorkers(g: nat) returns (sum: int64)
      requires g >= 1
      ensures sum == Wrap64(Total(payments[..|payments| - |payments| % g]))
    {
      var len1 := |payments| / g;
      var current := 0;
      sum := 0;
      for i := 0 to g
        invariant current == i * len1 && 0 <= current <= g * len1
        invariant sum == Wrap64(Total(payments[..current]))
      {
        WorkerWindow(|payments|, g, i);
        var res := SumWindow(current, current + len1);
        assert Add64(sum, res) == Wrap64(Total(payments[..current + len1])) by {
          assert payments[..current + len1][..current] == payments[..current];
          assert payments[..current + len1][current..] == payments[current..current + len1];
          WrapSplit(payments[..current + len1], current);
        }
        sum := Add64(sum, res);
        current := current + len1;
      }
      assert current == |payments| - |payments| % g by { WorkerWindow(|payments|, g, 0); }
    }

    /** The int64 total for one worker or more; a negative worker count adds
        the last `n mod |g|` amounts a second time. */
    method SumPayments(goroutines: int) returns (sum: int64)
      requires goroutines != 0
      ensures goroutines >= 1 ==> sum == Wrap64(Total(payments))
      ensures goroutines < 0 ==>
        sum == Wrap64(Total(payments) + Total(payments[|payments| - GoMod(|payments|, goroutines)..]))
    {
      var n := |payments|;
      var len2 := GoMod(n, goroutines);
      if goroutines > 1 {
        sum := SumWorkers(goroutines);
        if len2 != 0 {
          var res := SumWindow(n - len2, n);
          WorkersThenTail(payments, n - len2, sum, res);
          sum := Add64(sum, res);
        } else {
          assert payments[..n] == payments;
        }
      } else {
        sum := SumWindow(0, n);
        assert payments[0..n] == payments;
        if len2 != 0 {
          var res := SumWindow(n - len2, n);
          assert payments[n - len2..n] == payments[n - len2..];
          WrapAddBoth(Total(payments), Total(payments[n - len2..]));
          sum := Add64(sum, res);
        }
      }
    }

    /** The workers `0 .. g - 1`, one after another, each appending what it
        collected from its window. */
    method FilterWorkers(g: nat, filter: Payment -> bool) returns (result: seq<Payment>)
      requires g >= 1
      ensures result == Filter(payments[..|payments| - |payments| % g], filter)
    {
      var len1 := |payments| / g;
      var current := 0;
      result := [];
      for i := 0 to g
        invariant current == i * len1 && 0 <= current <= g * len1
        invariant result == Filter(payments[..current], filter)
      {
        WorkerWindow(|payments|, g, i);
        var res := FilterWindow(current, current + len1, filter);
        assert payments[..current + len1] == payments[..current] + payments[current..current + len1];
        FilterConcat(payments[..current], payments[current..current + len1], filter);
        result := result + res;
        current := current + len1;
      }
      WorkerWindow(|payments|, g, 0);
    }

    /** With fewer than two workers: the matching payments in order. With
        more, the workers' results in whatever order they finish, and an
        error when nothing matched. */
    method FilterPaymentsByFn(filter: Payment -> bool, goroutines: int) returns (r: Result<seq<Payment>>)
      requires goroutines != 0
      ensures goroutines < 2 ==> r == Ok(Filter(payments, filter))
      ensures goroutines >= 2 ==> (r.Err? <==> |Filter(payments, filter)| == 0)
      ensures goroutines >= 2 && r.Err? ==> r.error == AccountNotFound
      ensures goroutines >= 2 && r.Ok? ==> multiset(r.value) == multiset(Filter(payments, filter))
    {
      var n := |payments|;
      var len2 := GoMod(n, goroutines);
      if goroutines < 2 {
        var result := FilterWindow(0, n, filter);
        assert payments[0..n] == payments;
        return Ok(result);
      }
      var result := FilterWorkers(goroutines, filter);
      var current := n - len2;
      if len2 != 0 {
        var res := FilterWindow(current, n, filter);
        assert payments[..current] + payments[current..n] == payments;
        FilterConcat(payments[..current], payments[current..n], filter);
        result := result + res;
      } else {
        assert payments[..current] == payments;
      }
      if |result| == 0 {
        return Err(AccountNotFound);
      }
      r := Ok(result);
    }

    method FilterPayments(accountID: int64, goroutines: int) returns (r: Result<seq<Payment>>)
      requires goroutines != 0
      ensures goroutines < 2 ==> r == Ok(Filter(payments, BelongsTo(accountID)))
      ensures goroutines >= 2 ==> (r.Err? <==> |Filter(payments, BelongsTo(accountID))| == 0)
      ensures goroutines >= 2 && r.Err? ==> r.error == AccountNotFound
      ensures goroutines >= 2 && r.Ok? ==> multiset(r.value) == multiset(Filter(payments, BelongsTo(accountID)))
    {
      r := FilterPaymentsByFn(BelongsTo(accountID), goroutines);
    }
  }

  /** Go's `n % g` for `n >= 0` and `g != 0`: the remainder takes the
      dividend's sign, so it is `n` modulo `|g|`. */
  function GoMod(n: nat, g: int): (r: nat)
    requires g != 0
    ensures r < (if g < 0 then -g else g) && r <= n
  {
    if g < 0 then n % -g else n % g
  }

  /** `GoMod(n, g)` is the remainder of truncated division: `n` is a
      non-negative multiple of `g` plus the remainder. */
  lemma GoModValue(n: nat, g: int)
    requires g != 0
    ensures exists q: int :: n == q * g + GoMod(n, g) && q * g >= 0
  {
    var m := if g < 0 then -g else g;
    var r := GoMod(n, g);
    assert n == (n / m) * m + r;
    var q := if g < 0 then -(n / -g) else n / g;
    assert n == q * g + r && q * g >= 0;
  }
}
