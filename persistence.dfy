/** Snapshots of the ledger as text, and the import that reads them back:
    the single-file account snapshot (`ExportToFile`/`ImportFromFile`, records
    ended by `|`) and the directory snapshot (`Export`/`Import`, three dump
    files with one `\n`-ended record per line, imported as an upsert by ID). */
module Persistence {
  import opened Types
  import opened Scan
  import opened Codec
  import opened Store
  import opened History

  /** Every record with at least 2 fields has at least `width` of them (the
      import indexes fields up to `width - 1` once it has seen 2). */
  predicate Fits(line: string, width: nat)
  {
    |Split(line, ';')| < 2 || |Split(line, ';')| >= width
  }

  predicate LinesFit(lines: seq<string>, width: nat)
  {
    forall i :: 0 <= i < |lines| ==> Fits(lines[i], width)
  }

  predicate WellFormed(text: string, sep: char, width: nat)
  {
    LinesFit(Split(text, sep), width)
  }

  // ---------------------------------------------------------------------
  // Export

  function AccountsText(accounts: seq<Account>): string { Text(accounts, AccountToString, '\n') }
  function PaymentsText(payments: seq<Payment>): string { Text(payments, PaymentToString, '\n') }
  function FavoritesText(favorites: seq<Favorite>): string { Text(favorites, FavoriteToString, '\n') }

  /** The single-file snapshot: every account followed by `|`. */
  function SnapshotText(accounts: seq<Account>): string { Text(accounts, AccountToString, '|') }

  /** The files `Export` writes, in the order it writes them; an empty
      collection writes no file. */
  function ExportFiles(l: Ledger): (files: seq<DumpFile>)
    ensures |files| <= 3
    ensures forall i :: 0 <= i < |files| ==> files[i].name in {"accounts.dump", "favorites.dump", "payments.dump"}
  {
    (if |l.accounts| > 0 then [DumpFile("accounts.dump", AccountsText(l.accounts))] else [])
    + (if |l.favorites| > 0 then [DumpFile("favorites.dump", FavoritesText(l.favorites))] else [])
    + (if |l.payments| > 0 then [DumpFile("payments.dump", PaymentsText(l.payments))] else [])
  }

  /** What a read of `name` yields: its content, or "" when it is missing. */
  function ReadDump(files: seq<DumpFile>, name: string): string
  {
    if |files| == 0 then ""
    else if files[0].name == name then files[0].content
    else ReadDump(files[1..], name)
  }

  // ---------------------------------------------------------------------
  // Import: one step per line, then the fold over the lines in order

  /** Payments and favorites stay. Either one account is overwritten in place
      under its own ID and the counter stays, or an account with a new ID is
      appended and becomes the counter. */
  function ImportAccountLine(l: Ledger, line: string): (r: Ledger)
    requires Fits(line, 3)
    ensures r.payments == l.payments && r.favorites == l.favorites
    ensures |l.accounts| <= |r.accounts| <= |l.accounts| + 1
    ensures |r.accounts| > |l.accounts| ==>
      && r.accounts[..|l.accounts|] == l.accounts
      && !Has(l.accounts, AccountID, r.accounts[|l.accounts|].id)
      && r.nextAccountID == r.accounts[|l.accounts|].id
    ensures |r.accounts| == |l.accounts| ==>
      && r.nextAccountID == l.nextAccountID
      && (r == l || exists i :: 0 <= i < |l.accounts| && r.accounts == l.accounts[i := r.accounts[i]] && r.accounts[i].id == l.accounts[i].id)
  {
    var fields := Split(line, ';');
    if |fields| < 2 then l
    else
      var a := ParseAccount(fields);
      match FirstIndex(l.accounts, AccountID, a.id)
      case None => l.(accounts := l.accounts + [a], nextAccountID := a.id)
      case Some(i) => l.(accounts := l.accounts[i := l.accounts[i].(phone := a.phone, balance := a.balance)])
  }

  /** Only the payments change: one is overwritten in place under its own
      ID, or a payment with a new ID is appended. */
  function ImportPaymentLine(l: Ledger, line: string): (r: Ledger)
    requires Fits(line, 5)
    ensures r.accounts == l.accounts && r.favorites == l.favorites && r.nextAccountID == l.nextAccountID
    ensures |l.payments| <= |r.payments| <= |l.payments| + 1
    ensures |r.payments| > |l.payments| ==>
      r.payments[..|l.payments|] == l.payments && !Has(l.payments, PaymentID, r.payments[|l.payments|].id)
    ensures |r.payments| == |l.payments| ==>
      r == l || exists i :: 0 <= i < |l.payments| && r.payments == l.payments[i := r.payments[i]] && r.payments[i].id == l.payments[i].id
  {
    var fields := Split(line, ';');
    if |fields| < 2 then l
    else
      var p := ParsePayment(fields);
      match FirstIndex(l.payments, PaymentID, p.id)
      case None => l.(payments := l.payments + [p])
      case Some(i) => l.(payments := l.payments[i := p])
  }

  /** Only the favorites change: one is overwritten in place and keeps its
      stored ID, or one is appended under `freshID`, which stands for the
      `uuid.New()` a new favorite receives. */
  function ImportFavoriteLine(l: Ledger, line: string, freshID: string): (r: Ledger)
    requires Fits(line, 5)
    ensures r.accounts == l.accounts && r.payments == l.payments && r.nextAccountID == l.nextAccountID
    ensures |l.favorites| <= |r.favorites| <= |l.favorites| + 1
    ensures |r.favorites| > |l.favorites| ==> r.favorites[..|l.favorites|] == l.favorites && r.favorites[|l.favorites|].id == freshID
    ensures |r.favorites| == |l.favorites| ==>
      r == l || exists i :: 0 <= i < |l.favorites| && r.favorites == l.favorites[i := r.favorites[i]] && r.favorites[i].id == l.favorites[i].id
  {
    var fields := Split(line, ';');
    if |fields| < 2 then l
    else
      var f := ParseFavorite(fields);
      match FirstIndex(l.favorites, FavoriteID, f.id)
      case None => l.(favorites := l.favorites + [f.(id := freshID)])
      case Some(i) => l.(favorites := l.favorites[i := f.(id := l.favorites[i].id)])
  }

  function ImportAccountLines(l: Ledger, lines: seq<string>): Ledger
    requires LinesFit(lines, 3)
  {
    if |lines| == 0 then l
    else
      ImportAccountLine(ImportAccountLines(l, lines[..|lines| - 1]), lines[|lines| - 1])
  }

  function ImportPaymentLines(l: Ledger, lines: seq<string>): Ledger
    requires LinesFit(lines, 5)
  {
    if |lines| == 0 then l
    else
      ImportPaymentLine(ImportPaymentLines(l, lines[..|lines| - 1]), lines[|lines| - 1])
  }

  /** Line `i` draws `freshIDs[i]` if it creates a favorite. */
  function ImportFavoriteLines(l: Ledger, lines: seq<string>, freshIDs: seq<string>): Ledger
    requires LinesFit(lines, 5) && |freshIDs| >= |lines|
  {
    if |lines| == 0 then l
    else
      ImportFavoriteLine(ImportFavoriteLines(l, lines[..|lines| - 1], freshIDs), lines[|lines| - 1], freshIDs[|lines| - 1])
  }

  /** The directory import, from the contents of the three dump files. */
  function Import(l: Ledger, accountsText: string, paymentsText: string, favoritesText: string,
                  freshIDs: seq<string>): Ledger
    requires WellFormed(accountsText, '\n', 3)
    requires WellFormed(paymentsText, '\n', 5)
    requires WellFormed(favoritesText, '\n', 5)
    requires |freshIDs| >= |Split(favoritesText, '\n')|
  {
    var l1 := ImportAccountLines(l, Split(accountsText, '\n'));
    var l2 := ImportPaymentLines(l1, Split(paymentsText, '\n'));
    ImportFavoriteLines(l2, Split(favoritesText, '\n'), freshIDs)
  }

  // ---------------------------------------------------------------------
  // ImportFromFile: re-register and re-deposit each record, stopping at the first error

  /** The records `ImportFromFile` gets through without indexing past the
      end of a record's fields. It reads the third field of a record with two
      or more fields only once that record's phone has been registered, and it
      stops at the first error. So a record needs three fields only when it is
      reached and its phone is free. */
  predicate Restorable(l: Ledger, records: seq<string>)
    decreases |records|
  {
    if |records| == 0 then true
    else
      var fields := Split(records[0], ';');
      if |fields| < 2 then Restorable(l, records[1..])
      else
        var reg := RegisterAccount(l, fields[1]);
        reg.result.Err?
        || (|fields| >= 3
            && (var dep := Deposit(reg.ledger, reg.result.value.id, Atoi(fields[2]));
                dep.result.Err? || Restorable(dep.ledger, records[1..])))
  }

  /** Restoring leaves payments and favorites alone and never removes an account. */
  function RestoreAccounts(l: Ledger, records: seq<string>): (s: Step<()>)
    requires Restorable(l, records)
    ensures s.ledger.payments == l.payments && s.ledger.favorites == l.favorites
    ensures |s.ledger.accounts| >= |l.accounts|
    decreases |records|
  {
    if |records| == 0 then Step(l, Ok(()))
    else
      var fields := Split(records[0], ';');
      if |fields| < 2 then RestoreAccounts(l, records[1..])
      else
        var reg := RegisterAccount(l, fields[1]);
        match reg.result
        case Err(e) => Step(reg.ledger, Err(e))
        case Ok(account) =>
          var dep := Deposit(reg.ledger, account.id, Atoi(fields[2]));
          if dep.result.Err? then Step(dep.ledger, Err(dep.result.error))
          else RestoreAccounts(dep.ledger, records[1..])
  }

  function ImportFromFile(l: Ledger, text: string): Step<()>
    requires Restorable(l, Split(text, '|'))
  {
    RestoreAccounts(l, Split(text, '|'))
  }

  // ---------------------------------------------------------------------
  // Properties of one imported line

  /** A line with fewer than two fields is skipped. */
  lemma ShortLineSkipped(l: Ledger, line: string, freshID: string)
    requires |Split(line, ';')| < 2
    ensures ImportAccountLine(l, line) == l
    ensures ImportPaymentLine(l, line) == l
    ensures ImportFavoriteLine(l, line, freshID) == l
  {
  }

  /** An account record with a known ID overwrites phone and balance in place;
      one with a new ID is appended and becomes the counter, even when that
      lowers it. */
  lemma ImportAccountUpsert(l: Ledger, a: Account)
    requires CleanAccount(a)
    ensures Fits(AccountToString(a), 3)
    ensures var l' := ImportAccountLine(l, AccountToString(a));
      && l'.payments == l.payments && l'.favorites == l.favorites
      && (Has(l.accounts, AccountID, a.id) ==>
            var i := FirstIndex(l.accounts, AccountID, a.id).value;
            && l'.nextAccountID == l.nextAccountID
            && |l'.accounts| == |l.accounts|
            && l'.accounts == l.accounts[i := a])
      && (!Has(l.accounts, AccountID, a.id) ==>
            l'.accounts == l.accounts + [a] && l'.nextAccountID == a.id)
  {
    AccountRoundTrip(a);
  }

  /** A payment record with a known ID overwrites it in place; a new one is
      appended under its imported ID. */
  lemma ImportPaymentUpsert(l: Ledger, p: Payment)
    requires CleanPayment(p)
    ensures Fits(PaymentToString(p), 5)
    ensures var l' := ImportPaymentLine(l, PaymentToString(p));
      && l'.accounts == l.accounts && l'.favorites == l.favorites && l'.nextAccountID == l.nextAccountID
      && (Has(l.payments, PaymentID, p.id) ==>
            l'.payments == l.payments[FirstIndex(l.payments, PaymentID, p.id).value := p])
      && (!Has(l.payments, PaymentID, p.id) ==> l'.payments == l.payments + [p])
  {
    PaymentRoundTrip(p);
  }

  /** A favorite record with a known ID overwrites its other fields in place; a
      new one is appended under a fresh ID, not the imported one. */
  lemma ImportFavoriteUpsert(l: Ledger, f: Favorite, freshID: string)
    requires CleanFavorite(f)
    ensures Fits(FavoriteToString(f), 5)
    ensures var l' := ImportFavoriteLine(l, FavoriteToString(f), freshID);
      && l'.accounts == l.accounts && l'.payments == l.payments && l'.nextAccountID == l.nextAccountID
      && (Has(l.favorites, FavoriteID, f.id) ==>
            l'.favorites == l.favorites[FirstIndex(l.favorites, FavoriteID, f.id).value := f])
      && (!Has(l.favorites, FavoriteID, f.id) ==> l'.favorites == l.favorites + [f.(id := freshID)])
  {
    FavoriteRoundTrip(f);
  }

  /** Because a new favorite is stored under a fresh ID, importing the same
      record twice appends it twice. */
  lemma FavoriteReimportDuplicates(l: Ledger, f: Favorite, fresh1: string, fresh2: string)
    requires CleanFavorite(f)
    requires !Has(l.favorites, FavoriteID, f.id) && fresh1 != f.id
    ensures Fits(FavoriteToString(f), 5)
    ensures var l1 := ImportFavoriteLine(l, FavoriteToString(f), fresh1);
            ImportFavoriteLine(l1, FavoriteToString(f), fresh2).favorites
              == l.favorites + [f.(id := fresh1), f.(id := fresh2)]
  {
    ImportFavoriteUpsert(l, f, fresh1);
    var l1 := ImportFavoriteLine(l, FavoriteToString(f), fresh1);
    assert !Has(l1.favorites, FavoriteID, f.id);
    ImportFavoriteUpsert(l1, f, fresh2);
  }

  /** An imported new account sets the counter to its own ID even when a
      higher ID exists, so the next registration reuses an ID already taken. */
  lemma ImportThenRegisterDuplicates(l: Ledger, a: Account, phone: string)
    requires CleanAccount(a) && !Has(l.accounts, AccountID, a.id)
    requires exists k :: 0 <= k < |l.accounts| && l.accounts[k].id == a.id + 1
    requires !Has(l.accounts, AccountPhone, phone) && phone != a.phone
    ensures Fits(AccountToString(a), 3)
    ensures var s := RegisterAccount(ImportAccountLine(l, AccountToString(a)), phone);
            s.result.Ok? && s.result.value.id == a.id + 1 && !Unique(s.ledger.accounts, AccountID)
  {
    ImportAccountUpsert(l, a);
    var l1 := ImportAccountLine(l, AccountToString(a));
    assert l1.accounts == l.accounts + [a] && l1.nextAccountID == a.id;
    var k :| 0 <= k < |l.accounts| && l.accounts[k].id == a.id + 1;
    assert !Has(l1.accounts, AccountPhone, phone) by {
      forall i | 0 <= i < |l1.accounts| ensures l1.accounts[i].phone != phone {
        if i < |l.accounts| { assert l1.accounts[i] == l.accounts[i]; }
      }
    }
    var s := RegisterAccount(l1, phone);
    assert s.result == Ok(Account(a.id + 1, phone, 0));
    var xs := s.ledger.accounts;
    assert xs == l1.accounts + [Account(a.id + 1, phone, 0)];
    assert xs[k] == l.accounts[k] && k < |l.accounts| + 1 < |xs|;
    assert AccountID(xs[k]) == AccountID(xs[|l.accounts| + 1]);
  }

  // ---------------------------------------------------------------------
  // Round trip: export, then import into an empty ledger

  /** `line` is a record from which the import reads back exactly `a`. */
  predicate EncodesAccount(line: string, a: Account)
  {
    |Split(line, ';')| == 3 && ParseAccount(Split(line, ';')) == a
  }

  predicate EncodesPayment(line: string, p: Payment)
  {
    |Split(line, ';')| == 5 && ParsePayment(Split(line, ';')) == p
  }

  predicate EncodesFavorite(line: string, f: Favorite)
  {
    |Split(line, ';')| == 5 && ParseFavorite(Split(line, ';')) == f
  }

  lemma AccountLinesEncode(accounts: seq<Account>)
    requires forall i :: 0 <= i < |accounts| ==> CleanAccount(accounts[i])
    ensures forall i :: 0 <= i < |accounts| ==>
      '\n' !in Lines(accounts, AccountToString)[i] && EncodesAccount(Lines(accounts, AccountToString)[i], accounts[i])
  {
    forall i | 0 <= i < |accounts|
      ensures '\n' !in AccountToString(accounts[i]) && EncodesAccount(AccountToString(accounts[i]), accounts[i])
    {
      AccountRoundTrip(accounts[i]);
    }
  }

  lemma PaymentLinesEncode(payments: seq<Payment>)
    requires forall i :: 0 <= i < |payments| ==> CleanPayment(payments[i])
    ensures forall i :: 0 <= i < |payments| ==>
      '\n' !in Lines(payments, PaymentToString)[i] && EncodesPayment(Lines(payments, PaymentToString)[i], payments[i])
  {
    forall i | 0 <= i < |payments|
      ensures '\n' !in PaymentToString(payments[i]) && EncodesPayment(PaymentToString(payments[i]), payments[i])
    {
      PaymentRoundTrip(payments[i]);
    }
  }

  lemma FavoriteLinesEncode(favorites: seq<Favorite>)
    requires forall i :: 0 <= i < |favorites| ==> CleanFavorite(favorites[i])
    ensures forall i :: 0 <= i < |favorites| ==>
      '\n' !in Lines(favorites, FavoriteToString)[i] && EncodesFavorite(Lines(favorites, FavoriteToString)[i], favorites[i])
  {
    forall i | 0 <= i < |favorites|
      ensures '\n' !in FavoriteToString(favorites[i]) && EncodesFavorite(FavoriteToString(favorites[i]), favorites[i])
    {
      FavoriteRoundTrip(favorites[i]);
    }
  }

  /** `lines` fits when its front does and its last line encodes a record. */
  lemma FitsSnoc(lines: seq<string>, width: nat)
    requires |lines| > 0 && LinesFit(lines[..|lines| - 1], width)
    requires |Split(lines[|lines| - 1], ';')| >= width
    ensures LinesFit(lines, width)
  {
    var n := |lines| - 1;
    forall i | 0 <= i < n ensures Fits(lines[i], width) {
      assert lines[i] == lines[..n][i];
    }
  }

  /** After the front of `lines` has produced `l1`, a last record of an
      account not yet present is appended and moves the counter to its ID. */
  lemma ImportNewAccount(l: Ledger, lines: seq<string>, l1: Ledger, a: Account)
    requires |lines| > 0 && LinesFit(lines, 3)
    requires ImportAccountLines(l, lines[..|lines| - 1]) == l1
    requires EncodesAccount(lines[|lines| - 1], a) && !Has(l1.accounts, AccountID, a.id)
    ensures ImportAccountLines(l, lines) == l1.(accounts := l1.accounts + [a], nextAccountID := a.id)
  {
  }

  /** Likewise a last record of a payment not yet present is appended. */
  lemma ImportNewPayment(l: Ledger, lines: seq<string>, l1: Ledger, p: Payment)
    requires |lines| > 0 && LinesFit(lines, 5)
    requires ImportPaymentLines(l, lines[..|lines| - 1]) == l1
    requires EncodesPayment(lines[|lines| - 1], p) && !Has(l1.payments, PaymentID, p.id)
    ensures ImportPaymentLines(l, lines) == l1.(payments := l1.payments + [p])
  {
  }

  /** And a last record of a favorite not yet present is appended under its line's fresh ID. */
  lemma ImportNewFavorite(l: Ledger, lines: seq<string>, freshIDs: seq<string>, l1: Ledger, f: Favorite)
    requires |lines| > 0 && LinesFit(lines, 5) && |freshIDs| >= |lines|
    requires ImportFavoriteLines(l, lines[..|lines| - 1], freshIDs) == l1
    requires EncodesFavorite(lines[|lines| - 1], f) && !Has(l1.favorites, FavoriteID, f.id)
    ensures ImportFavoriteLines(l, lines, freshIDs)
         == l1.(favorites := l1.favorites + [f.(id := freshIDs[|lines| - 1])])
  {
  }

  /** Importing the records of distinct accounts into a ledger with none
      appends them in order; the counter ends at the last one's ID. */
  lemma {:induction false} ImportAccountsRoundTrip(l: Ledger, accounts: seq<Account>, lines: seq<string>)
    requires l.accounts == [] && Unique(accounts, AccountID)
    requires |lines| == |accounts| && forall i :: 0 <= i < |lines| ==> EncodesAccount(lines[i], accounts[i])
    ensures LinesFit(lines, 3)
    ensures ImportAccountLines(l, lines)
         == l.(accounts := accounts, nextAccountID := if |accounts| == 0 then l.nextAccountID else accounts[|accounts| - 1].id)
    decreases |lines|
  {
    if |lines| != 0 {
      var n := |lines| - 1;
      var init, front := accounts[..n], lines[..n];
      var l1 := l.(accounts := init, nextAccountID := if n == 0 then l.nextAccountID else init[n - 1].id);
      assert LinesFit(front, 3) && ImportAccountLines(l, front) == l1 by {
        assert forall i :: 0 <= i < n ==> EncodesAccount(front[i], init[i]) by {
          forall i | 0 <= i < n ensures front[i] == lines[i] && init[i] == accounts[i] { }
        }
        UniqueInit(accounts, AccountID);
        ImportAccountsRoundTrip(l, init, front);
      }
      assert !Has(init, AccountID, accounts[n].id) by {
        UniqueInit(accounts, AccountID);
      }
      assert EncodesAccount(lines[n], accounts[n]);
      FitsSnoc(lines, 3);
      ImportNewAccount(l, lines, l1, accounts[n]);
      InitLast(accounts);
    }
  }

  /** Importing the records of distinct payments into a ledger with none
      appends them in order, under their own IDs. */
  lemma {:induction false} ImportPaymentsRoundTrip(l: Ledger, payments: seq<Payment>, lines: seq<string>)
    requires l.payments == [] && Unique(payments, PaymentID)
    requires |lines| == |payments| && forall i :: 0 <= i < |lines| ==> EncodesPayment(lines[i], payments[i])
    ensures LinesFit(lines, 5)
    ensures ImportPaymentLines(l, lines) == l.(payments := payments)
    decreases |lines|
  {
    if |lines| != 0 {
      var n := |lines| - 1;
      var init, front := payments[..n], lines[..n];
      assert LinesFit(front, 5) && ImportPaymentLines(l, front) == l.(payments := init) by {
        assert forall i :: 0 <= i < n ==> EncodesPayment(front[i], init[i]) by {
          forall i | 0 <= i < n ensures front[i] == lines[i] && init[i] == payments[i] { }
        }
        UniqueInit(payments, PaymentID);
        ImportPaymentsRoundTrip(l, init, front);
      }
      assert !Has(init, PaymentID, payments[n].id) by {
        UniqueInit(payments, PaymentID);
      }
      assert EncodesPayment(lines[n], payments[n]);
      FitsSnoc(lines, 5);
      ImportNewPayment(l, lines, l.(payments := init), payments[n]);
      InitLast(payments);
    }
  }

  /** Each exported favorite comes back with its fields but under the fresh ID
      drawn for its line. */
  function Renamed(favorites: seq<Favorite>, freshIDs: seq<string>): (r: seq<Favorite>)
    requires |freshIDs| >= |favorites|
    ensures |r| == |favorites|
    ensures forall i :: 0 <= i < |r| ==> r[i] == favorites[i].(id := freshIDs[i])
  {
    seq(|favorites|, i requires 0 <= i < |favorites| => favorites[i].(id := freshIDs[i]))
  }

  lemma RenamedSnoc(favorites: seq<Favorite>, freshIDs: seq<string>)
    requires 0 < |favorites| <= |freshIDs|
    ensures var n := |favorites| - 1;
      Renamed(favorites[..n], freshIDs) + [favorites[n].(id := freshIDs[n])] == Renamed(favorites, freshIDs)
  {
    var n := |favorites| - 1;
    var a, b := Renamed(favorites[..n], freshIDs) + [favorites[n].(id := freshIDs[n])], Renamed(favorites, freshIDs);
    forall i | 0 <= i < |b| ensures a[i] == b[i] {
      if i < n { assert favorites[..n][i] == favorites[i]; }
    }
  }

  /** Importing favorite records into a ledger with none appends them in
      order, each under the fresh ID of its line. */
  lemma {:induction false} ImportFavoritesRoundTrip(l: Ledger, favorites: seq<Favorite>, lines: seq<string>,
                                                    freshIDs: seq<string>)
    requires l.favorites == [] && |freshIDs| >= |favorites|
    requires forall i, j :: 0 <= i < |freshIDs| && 0 <= j < |favorites| ==> freshIDs[i] != favorites[j].id
    requires |lines| == |favorites| && forall i :: 0 <= i < |lines| ==> EncodesFavorite(lines[i], favorites[i])
    ensures LinesFit(lines, 5)
    ensures ImportFavoriteLines(l, lines, freshIDs) == l.(favorites := Renamed(favorites, freshIDs))
    decreases |lines|
  {
    if |lines| != 0 {
      var n := |lines| - 1;
      var init, front := favorites[..n], lines[..n];
      var renamed := Renamed(init, freshIDs);
      assert LinesFit(front, 5) && ImportFavoriteLines(l, front, freshIDs) == l.(favorites := renamed) by {
        assert forall i :: 0 <= i < n ==> EncodesFavorite(front[i], init[i]) by {
          forall i | 0 <= i < n ensures front[i] == lines[i] && init[i] == favorites[i] { }
        }
        assert forall i, j :: 0 <= i < |freshIDs| && 0 <= j < n ==> freshIDs[i] != init[j].id by {
          forall i, j | 0 <= i < |freshIDs| && 0 <= j < n ensures freshIDs[i] != init[j].id {
            assert init[j] == favorites[j];
          }
        }
        ImportFavoritesRoundTrip(l, init, front, freshIDs);
      }
      FavoritesRoundTripStep(l, favorites, lines, freshIDs);
    }
  }

  /** The last record of the round trip, once the ones before it are back. */
  lemma FavoritesRoundTripStep(l: Ledger, favorites: seq<Favorite>, lines: seq<string>, freshIDs: seq<string>)
    requires 0 < |lines| == |favorites| <= |freshIDs|
    requires var n := |lines| - 1;
      LinesFit(lines[..n], 5) && ImportFavoriteLines(l, lines[..n], freshIDs) == l.(favorites := Renamed(favorites[..n], freshIDs))
    requires var n := |lines| - 1;
      EncodesFavorite(lines[n], favorites[n]) && forall i :: 0 <= i < |freshIDs| ==> freshIDs[i] != favorites[n].id
    ensures LinesFit(lines, 5)
    ensures ImportFavoriteLines(l, lines, freshIDs) == l.(favorites := Renamed(favorites, freshIDs))
  {
    var n := |lines| - 1;
    var f, renamed := favorites[n], Renamed(favorites[..n], freshIDs);
    FitsSnoc(lines, 5);
    assert ImportFavoriteLines(l, lines, freshIDs) == l.(favorites := renamed + [f.(id := freshIDs[n])]) by {
      var l1 := l.(favorites := renamed);
      assert !Has(l1.favorites, FavoriteID, f.id) by {
        forall i | 0 <= i < |renamed| ensures renamed[i].id != f.id {
          assert renamed[i].id == freshIDs[i];
        }
      }
      ImportNewFavorite(l, lines, freshIDs, l1, f);
    }
    RenamedSnoc(favorites, freshIDs);
  }

  /** The empty line after a file's last terminator is skipped by every fold. */
  lemma TrailingLineSkipped(l: Ledger, lines: seq<string>, width: nat, freshIDs: seq<string>)
    requires LinesFit(lines, width)
    ensures LinesFit(lines + [""], width)
    ensures width == 3 ==> ImportAccountLines(l, lines + [""]) == ImportAccountLines(l, lines)
    ensures width == 5 ==> ImportPaymentLines(l, lines + [""]) == ImportPaymentLines(l, lines)
    ensures width == 5 && |freshIDs| > |lines| ==>
      ImportFavoriteLines(l, lines + [""], freshIDs) == ImportFavoriteLines(l, lines, freshIDs)
  {
    assert |Split("", ';')| == 1;
    assert (lines + [""])[..|lines|] == lines;
    assert LinesFit(lines + [""], width) by {
      forall i | 0 <= i < |lines| + 1 ensures Fits((lines + [""])[i], width) {
        if i < |lines| { assert (lines + [""])[i] == lines[i]; }
      }
    }
  }

  predicate CleanLedger(l: Ledger)
  {
    && (forall i :: 0 <= i < |l.accounts| ==> CleanAccount(l.accounts[i]))
    && (forall i :: 0 <= i < |l.payments| ==> CleanPayment(l.payments[i]))
    && (forall i :: 0 <= i < |l.favorites| ==> CleanFavorite(l.favorites[i]))
  }

  lemma {:induction false} ReadAbsent(files: seq<DumpFile>, name: string)
    requires forall i :: 0 <= i < |files| ==> files[i].name != name
    ensures ReadDump(files, name) == ""
    decreases |files|
  {
    if |files| != 0 {
      ReadAbsent(files[1..], name);
    }
  }

  lemma {:induction false} ReadFound(front: seq<DumpFile>, file: DumpFile, back: seq<DumpFile>)
    requires forall i :: 0 <= i < |front| ==> front[i].name != file.name
    ensures ReadDump(front + [file] + back, file.name) == file.content
    decreases |front|
  {
    if |front| != 0 {
      assert (front + [file] + back)[1..] == front[1..] + [file] + back;
      ReadFound(front[1..], file, back);
    } else {
      assert front + [file] + back == [file] + back;
    }
  }

  /** A read of each dump file after `Export` yields its collection's text,
      "" for an empty collection whose file was not written. */
  lemma ReadExport(l: Ledger)
    ensures ReadDump(ExportFiles(l), "accounts.dump") == AccountsText(l.accounts)
    ensures ReadDump(ExportFiles(l), "payments.dump") == PaymentsText(l.payments)
    ensures ReadDump(ExportFiles(l), "favorites.dump") == FavoritesText(l.favorites)
  {
    ReadExportInto(l, []);
    assert ExportFiles(l) + [] == ExportFiles(l);
  }

  /** A directory read front first: a file written in front (at most one
      here) answers for its own name and passes every other name on. */
  lemma ReadLayer(front: seq<DumpFile>, back: seq<DumpFile>, name: string)
    requires |front| <= 1
    ensures ReadDump(front + back, name)
         == if |front| == 1 && front[0].name == name then front[0].content else ReadDump(back, name)
  {
    if |front| == 1 {
      ConsTail(front[0], back);
      assert front == [front[0]];
    } else {
      assert front + back == back;
    }
  }

  /** `Export` into a directory `dir` that already holds files: the files it
      writes replace those of the same name (`ExportFiles(l) + dir`, read
      front first). An empty collection writes no file, so a read of its
      dump yields whatever `dir` held before, and `Import` reads that stale
      dump back. */
  lemma ReadExportInto(l: Ledger, dir: seq<DumpFile>)
    ensures ReadDump(ExportFiles(l) + dir, "accounts.dump")
         == if |l.accounts| > 0 then AccountsText(l.accounts) else ReadDump(dir, "accounts.dump")
    ensures ReadDump(ExportFiles(l) + dir, "payments.dump")
         == if |l.payments| > 0 then PaymentsText(l.payments) else ReadDump(dir, "payments.dump")
    ensures ReadDump(ExportFiles(l) + dir, "favorites.dump")
         == if |l.favorites| > 0 then FavoritesText(l.favorites) else ReadDump(dir, "favorites.dump")
  {
    var fa := DumpFile("accounts.dump", AccountsText(l.accounts));
    var ff := DumpFile("favorites.dump", FavoritesText(l.favorites));
    var fp := DumpFile("payments.dump", PaymentsText(l.payments));
    var a := if |l.accounts| > 0 then [fa] else [];
    var f := if |l.favorites| > 0 then [ff] else [];
    var p := if |l.payments| > 0 then [fp] else [];
    assert ExportFiles(l) + dir == a + (f + (p + dir)) by {
      AppendAssoc(a, f, p);
      AppendAssoc(a + f, p, dir);
      AppendAssoc(a, f, p + dir);
    }
    assert fa.name != ff.name && fa.name != fp.name && ff.name != fp.name by {
      assert fa.name[0] == 'a' && ff.name[0] == 'f' && fp.name[0] == 'p';
    }
    var files := a + (f + (p + dir));
    assert ReadDump(files, fa.name) == if |l.accounts| > 0 then fa.content else ReadDump(dir, fa.name) by {
      ReadLayer(a, f + (p + dir), fa.name);
      if |l.accounts| == 0 {
        ReadLayer(f, p + dir, fa.name);
        ReadLayer(p, dir, fa.name);
      }
    }
    assert ReadDump(files, ff.name) == if |l.favorites| > 0 then ff.content else ReadDump(dir, ff.name) by {
      ReadLayer(a, f + (p + dir), ff.name);
      ReadLayer(f, p + dir, ff.name);
      if |l.favorites| == 0 {
        ReadLayer(p, dir, ff.name);
      }
    }
    assert ReadDump(files, fp.name) == if |l.payments| > 0 then fp.content else ReadDump(dir, fp.name) by {
      ReadLayer(a, f + (p + dir), fp.name);
      ReadLayer(f, p + dir, fp.name);
      ReadLayer(p, dir, fp.name);
    }
  }

  /** Exporting a ledger and importing the three files into an empty ledger
      gives back its accounts and payments, the last account's ID as the
      counter, and its favorites under the fresh IDs drawn for them. */
  lemma ExportImportRoundTrip(l: Ledger, freshIDs: seq<string>)
    requires CleanLedger(l)
    requires Unique(l.accounts, AccountID) && Unique(l.payments, PaymentID)
    requires |freshIDs| > |l.favorites|
    requires forall i, j :: 0 <= i < |freshIDs| && 0 <= j < |l.favorites| ==> freshIDs[i] != l.favorites[j].id
    ensures var files := ExportFiles(l);
      var accountsText := ReadDump(files, "accounts.dump");
      var paymentsText := ReadDump(files, "payments.dump");
      var favoritesText := ReadDump(files, "favorites.dump");
      && WellFormed(accountsText, '\n', 3) && WellFormed(paymentsText, '\n', 5) && WellFormed(favoritesText, '\n', 5)
      && |freshIDs| >= |Split(favoritesText, '\n')|
      && Import(Empty, accountsText, paymentsText, favoritesText, freshIDs)
         == Ledger(if |l.accounts| == 0 then 0 else l.accounts[|l.accounts| - 1].id,
                   l.accounts, l.payments, Renamed(l.favorites, freshIDs))
  {
    ReadExport(l);
    var accountLines := Lines(l.accounts, AccountToString);
    var paymentLines := Lines(l.payments, PaymentToString);
    var favoriteLines := Lines(l.favorites, FavoriteToString);
    AccountLinesEncode(l.accounts);
    PaymentLinesEncode(l.payments);
    FavoriteLinesEncode(l.favorites);
    SplitFile(l.accounts, AccountToString, '\n');
    SplitFile(l.payments, PaymentToString, '\n');
    SplitFile(l.favorites, FavoriteToString, '\n');

    ImportAccountsRoundTrip(Empty, l.accounts, accountLines);
    var l1 := ImportAccountLines(Empty, accountLines);
    TrailingLineSkipped(Empty, accountLines, 3, freshIDs);

    ImportPaymentsRoundTrip(l1, l.payments, paymentLines);
    var l2 := ImportPaymentLines(l1, paymentLines);
    TrailingLineSkipped(l1, paymentLines, 5, freshIDs);

    ImportFavoritesRoundTrip(l2, l.favorites, favoriteLines, freshIDs);
    TrailingLineSkipped(l2, favoriteLines, 5, freshIDs);
  }

  // ---------------------------------------------------------------------
  // ImportFromFile

  /** Records that all have three fields, or fewer than two, never make the
      restore index past a record's end, whatever the ledger. */
  lemma {:induction false} FitRecordsRestorable(l: Ledger, records: seq<string>)
    requires LinesFit(records, 3)
    ensures Restorable(l, records)
    decreases |records|
  {
    if |records| > 0 {
      assert LinesFit(records[1..], 3) by {
        forall i | 0 <= i < |records| - 1 ensures Fits(records[1..][i], 3) {
          assert records[1..][i] == records[i + 1];
        }
      }
      var fields := Split(records[0], ';');
      if |fields| < 2 {
        FitRecordsRestorable(l, records[1..]);
      } else {
        var reg := RegisterAccount(l, fields[1]);
        if reg.result.Ok? {
          assert Fits(records[0], 3);
          var dep := Deposit(reg.ledger, reg.result.value.id, Atoi(fields[2]));
          FitRecordsRestorable(dep.ledger, records[1..]);
        }
      }
    }
  }

  /** A two-field record whose phone is taken stops the import with
      PhoneRegistered before its missing third field is read: the content is
      not well formed, yet importing it is defined and changes nothing. */
  lemma TakenPhoneStopsBeforeThirdField(l: Ledger, id: string, phone: string, rest: string)
    requires Has(l.accounts, AccountPhone, phone)
    requires ';' !in id && ';' !in phone && '|' !in id && '|' !in phone
    ensures !WellFormed(id + ";" + phone + "|" + rest, '|', 3)
    ensures Restorable(l, Split(id + ";" + phone + "|" + rest, '|'))
    ensures ImportFromFile(l, id + ";" + phone + "|" + rest) == Step(l, Err(PhoneRegistered))
  {
    var line := id + ";" + phone;
    assert '|' !in line;
    assert line + "|" + rest == line + ['|'] + rest;
    SplitAround(line, rest, '|');
    SplitNoSeparator(line, '|');
    assert Split(line + "|" + rest, '|') == [line] + Split(rest, '|');
    assert line == id + [';'] + phone;
    SplitAround(id, phone, ';');
    SplitNoSeparator(id, ';');
    SplitNoSeparator(phone, ';');
    assert Split(line, ';') == [id, phone];
    assert !Fits(([line] + Split(rest, '|'))[0], 3);
  }

  /** A snapshot record with a non-positive balance makes ImportFromFile fail
      with AmountMustBePositive, after its account has been registered. */
  lemma ImportFromFileRejectsNonPositiveBalance(l: Ledger, a: Account, rest: string)
    requires CleanAccount(a) && '|' !in a.phone && a.balance <= 0
    requires !Has(l.accounts, AccountPhone, a.phone)
    ensures Restorable(l, Split(AccountToString(a) + "|" + rest, '|'))
    ensures var s := ImportFromFile(l, AccountToString(a) + "|" + rest);
      && s.result == Err(AmountMustBePositive)
      && s.ledger == RegisterAccount(l, a.phone).ledger
  {
    var line := AccountToString(a);
    var records := Split(line + "|" + rest, '|');
    assert records == [line] + Split(rest, '|') by {
      ItoaHasNoSeparator(a.id, '|');
      ItoaHasNoSeparator(a.balance, '|');
      JoinHasNo(AccountFields(a), ';', '|');
      SplitAround(line, rest, '|');
      SplitNoSeparator(line, '|');
    }
    var fields := Split(line, ';');
    assert |fields| == 3 && fields[1] == a.phone && Atoi(fields[2]) == a.balance by {
      AccountRoundTrip(a);
      assert ParseAccount(fields) == a;
    }
    assert records[0] == line;
    var reg := RegisterAccount(l, a.phone);
    assert reg.result.Ok?;
    assert Deposit(reg.ledger, reg.result.value.id, a.balance).result == Err(AmountMustBePositive);
  }

  /** The ledger after restoring `accounts` one by one: the `j`-th record
      re-registers its phone under the counter's `j + 1`-th next value and
      gets its balance deposited. */
  function Restored(l: Ledger, accounts: seq<Account>): (r: Ledger)
    ensures |r.accounts| == |l.accounts| + |accounts|
  {
    l.(nextAccountID := Wrap64(l.nextAccountID as int + |accounts|),
       accounts := l.accounts + seq(|accounts|, j requires 0 <= j < |accounts| =>
         Account(Wrap64(l.nextAccountID as int + j + 1), accounts[j].phone, accounts[j].balance)))
  }

  /** One snapshot record with an unregistered phone and a positive balance
      registers its account, deposits its balance and moves on. */
  lemma RestoreStep(l: Ledger, line: string, a: Account, rest: seq<string>)
    requires EncodesAccount(line, a) && a.balance > 0
    requires !Has(l.accounts, AccountPhone, a.phone)
    requires var id := Add64(l.nextAccountID, 1);
      Restorable(l.(nextAccountID := id, accounts := l.accounts + [Account(id, a.phone, a.balance)]), rest)
    ensures Restorable(l, [line] + rest)
    ensures var id := Add64(l.nextAccountID, 1);
      RestoreAccounts(l, [line] + rest)
        == RestoreAccounts(l.(nextAccountID := id, accounts := l.accounts + [Account(id, a.phone, a.balance)]), rest)
  {
    var records := [line] + rest;
    var fields := Split(line, ';');
    assert fields[1] == a.phone && Atoi(fields[2]) == a.balance by {
      assert ParseAccount(fields) == a;
    }
    ConsTail(line, rest);
    assert |fields| == 3 by { assert ParseAccount(fields) == a; }
    var id := Add64(l.nextAccountID, 1);
    var l1 := l.(nextAccountID := id, accounts := l.accounts + [Account(id, a.phone, 0)]);
    var l2 := l.(nextAccountID := id, accounts := l.accounts + [Account(id, a.phone, a.balance)]);
    assert RegisterAccount(l, a.phone) == Step(l1, Ok(Account(id, a.phone, 0))) by {}
    assert Deposit(l1, id, a.balance) == Step(l2, Ok(())) by {
      var n := |l.accounts|;
      assert LastIndex(l1.accounts, AccountID, id) == Some(n);
      assert Add64(0, a.balance) == a.balance;
      assert Credit(l1.accounts, n, a.balance) == l2.accounts;
    }
  }

  lemma RestoredCons(l: Ledger, accounts: seq<Account>)
    requires |accounts| > 0
    ensures var id := Add64(l.nextAccountID, 1);
      Restored(l.(nextAccountID := id, accounts := l.accounts + [Account(id, accounts[0].phone, accounts[0].balance)]),
               accounts[1..])
        == Restored(l, accounts)
  {
    var id := Add64(l.nextAccountID, 1);
    var a := accounts[0];
    var l1 := l.(nextAccountID := id, accounts := l.accounts + [Account(id, a.phone, a.balance)]);
    var rest := accounts[1..];
    var r1 := Restored(l1, rest);
    var r := Restored(l, accounts);
    WrapAdd(l.nextAccountID as int + 1, |rest|);
    assert r1.nextAccountID == r.nextAccountID;
    forall j | 0 <= j < |r.accounts| ensures r1.accounts[j] == r.accounts[j] {
      var n := |l.accounts|;
      if n < j {
        WrapAdd(l.nextAccountID as int + 1, j - n);
        assert rest[j - n - 1] == accounts[j - n];
      }
    }
  }

  /** Restoring records of accounts with distinct, unregistered phones and
      positive balances goes through all of them and continues with what
      follows from the restored ledger. */
  lemma {:induction false} RestoreSnapshot(l: Ledger, accounts: seq<Account>, lines: seq<string>, tail: seq<string>)
    requires |lines| == |accounts|
    requires forall i :: 0 <= i < |lines| ==> EncodesAccount(lines[i], accounts[i]) && accounts[i].balance > 0
    requires Unique(accounts, AccountPhone)
    requires forall i :: 0 <= i < |accounts| ==> !Has(l.accounts, AccountPhone, accounts[i].phone)
    requires Restorable(Restored(l, accounts), tail)
    ensures Restorable(l, lines + tail)
    ensures RestoreAccounts(l, lines + tail) == RestoreAccounts(Restored(l, accounts), tail)
    decreases |lines|
  {
    if |lines| == 0 {
      assert lines + tail == tail;
      assert Restored(l, accounts) == l;
    } else {
      var a := accounts[0];
      var rest := accounts[1..];
      var id := Add64(l.nextAccountID, 1);
      var l1 := l.(nextAccountID := id, accounts := l.accounts + [Account(id, a.phone, a.balance)]);
      forall i | 0 <= i < |rest| ensures !Has(l1.accounts, AccountPhone, rest[i].phone) {
        assert rest[i] == accounts[i + 1];
        assert AccountPhone(accounts[0]) != AccountPhone(accounts[i + 1]);
      }
      assert Unique(rest, AccountPhone) by {
        forall i, j | 0 <= i < j < |rest| ensures AccountPhone(rest[i]) != AccountPhone(rest[j]) {
          assert rest[i] == accounts[i + 1] && rest[j] == accounts[j + 1];
        }
      }
      var later := lines[1..] + tail;
      RestoredCons(l, accounts);
      assert Restorable(l1, later) && RestoreAccounts(l1, later) == RestoreAccounts(Restored(l1, rest), tail) by {
        RestoreSnapshot(l1, rest, lines[1..], tail);
      }
      assert lines + tail == [lines[0]] + later by {
        HeadTail(lines);
        AppendAssoc([lines[0]], lines[1..], tail);
      }
      assert RestoreAccounts(l, [lines[0]] + later) == RestoreAccounts(l1, later) by {
        assert EncodesAccount(lines[0], a);
        RestoreStep(l, lines[0], a, later);
      }
    }
  }

  /** ImportFromFile on the snapshot of accounts with distinct, unregistered
      phones and positive balances succeeds, and leaves the ledger with those
      accounts re-registered in order under the next IDs. */
  lemma ImportFromFileRestoresSnapshot(l: Ledger, accounts: seq<Account>)
    requires forall i :: 0 <= i < |accounts| ==>
      CleanAccount(accounts[i]) && '|' !in accounts[i].phone && accounts[i].balance > 0
    requires Unique(accounts, AccountPhone)
    requires forall i :: 0 <= i < |accounts| ==> !Has(l.accounts, AccountPhone, accounts[i].phone)
    ensures Restorable(l, Split(SnapshotText(accounts), '|'))
    ensures ImportFromFile(l, SnapshotText(accounts)) == Step(Restored(l, accounts), Ok(()))
  {
    var lines := Lines(accounts, AccountToString);
    AccountLinesEncode(accounts);
    forall i | 0 <= i < |accounts| ensures '|' !in AccountToString(accounts[i]) {
      var a := accounts[i];
      ItoaHasNoSeparator(a.id, '|');
      ItoaHasNoSeparator(a.balance, '|');
      JoinHasNo(AccountFields(a), ';', '|');
    }
    SplitFile(accounts, AccountToString, '|');
    assert |Split("", ';')| == 1;
    assert Restorable(Restored(l, accounts), [""]) by {
      assert [""][1..] == [];
    }
    RestoreSnapshot(l, accounts, lines, [""]);
  }
}
