/**
 * Building the current registration status of every citizen with an unknown
 * address: one row per citizen from the address mart, two remote lookups per
 * row, and a dictionary keyed by the citizen's pseudonym.
 */
module Registration {
  import opened Results
  import opened Pseudonym

  /** One row of the address query: the columns `CPR` and `Fornavn`. */
  datatype PersonRow = PersonRow(cpr: string, firstName: string)

  /** The two services asked about: Digital Post and NemSMS. */
  datatype Service = DigitalPost | NemSms

  /** The remote `is_registered` lookup; `Err` is a raised exception. */
  type Lookup = (string, Service) -> Result<bool>

  /** One entry of the status dictionary: both flags and the raw CPR number. */
  datatype Status = Status(digitalPost: bool, nemsms: bool, cpr: string)

  function KeyOf(hash: Hash, row: PersonRow): string {
    EncryptData(hash, row.cpr, row.firstName)
  }

  /** True when one of the two lookups for `row` raises. */
  predicate LookupFails(lookup: Lookup, row: PersonRow) {
    lookup(row.cpr, DigitalPost).Err? || lookup(row.cpr, NemSms).Err?
  }

  /** The entry stored for `row`, given that neither lookup raises. */
  function EntryOf(lookup: Lookup, row: PersonRow): Status
    requires !LookupFails(lookup, row)
  {
    Status(lookup(row.cpr, DigitalPost).value, lookup(row.cpr, NemSms).value, row.cpr)
  }

  /**
   * The dictionary after the rows have been read in order, or the first
   * exception raised by a lookup (the Digital Post lookup of a row is made
   * before its NemSMS lookup).
   */
  function StatusMap(rows: seq<PersonRow>, lookup: Lookup, hash: Hash): Result<map<string, Status>>
    decreases |rows|
  {
    if rows == [] then Ok(map[])
    else
      var row := rows[|rows| - 1];
      match StatusMap(rows[..|rows| - 1], lookup, hash)
      case Err(e) => Err(e)
      case Ok(m) =>
        match lookup(row.cpr, DigitalPost)
        case Err(e) => Err(e)
        case Ok(post) =>
          match lookup(row.cpr, NemSms)
          case Err(e) => Err(e)
          case Ok(sms) => Ok(m[KeyOf(hash, row) := Status(post, sms, row.cpr)])
  }

  /** Once a prefix of the rows has raised, the whole query raises the same error. */
  lemma {:induction false} StatusMapErrorPersists(rows: seq<PersonRow>, n: nat, lookup: Lookup, hash: Hash)
    requires n <= |rows|
    requires StatusMap(rows[..n], lookup, hash).Err?
    ensures StatusMap(rows, lookup, hash) == StatusMap(rows[..n], lookup, hash)
    decreases |rows| - n
  {
    if n < |rows| {
      assert rows[..n + 1][..n] == rows[..n];
      StatusMapErrorPersists(rows, n + 1, lookup, hash);
    } else {
      assert rows[..n] == rows;
    }
  }

  method GetRegistrationStatusFromQuery(rows: seq<PersonRow>, lookup: Lookup, hash: Hash)
    returns (statusList: Result<map<string, Status>>)
    ensures statusList == StatusMap(rows, lookup, hash)
  {
    var found: map<string, Status> := map[];
    for i := 0 to |rows|
      invariant StatusMap(rows[..i], lookup, hash) == Ok(found)
    {
      var row := rows[i];
      assert rows[..i + 1][..i] == rows[..i];
      var post := lookup(row.cpr, DigitalPost);
      if post.Err? {
        StatusMapErrorPersists(rows, i + 1, lookup, hash);
        return Err(post.error);
      }
      var nemsms := lookup(row.cpr, NemSms);
      if nemsms.Err? {
        StatusMapErrorPersists(rows, i + 1, lookup, hash);
        return Err(nemsms.error);
      }
      var encryptedId := EncryptData(hash, row.cpr, row.firstName);
      found := found[encryptedId := Status(post.value, nemsms.value, row.cpr)];
    }
    assert rows[..|rows|] == rows;
    statusList := Ok(found);
  }

  /** The query raises exactly when some lookup for some row raises. */
  lemma {:induction false} StatusMapFailsIffLookupFails(rows: seq<PersonRow>, lookup: Lookup, hash: Hash)
    ensures StatusMap(rows, lookup, hash).Err?
            <==> exists i :: 0 <= i < |rows| && LookupFails(lookup, rows[i])
  {
    if rows != [] {
      var init := rows[..|rows| - 1];
      StatusMapFailsIffLookupFails(init, lookup, hash);
      if StatusMap(init, lookup, hash).Err? {
        var i :| 0 <= i < |init| && LookupFails(lookup, init[i]);
        assert rows[i] == init[i];
      } else if !LookupFails(lookup, rows[|rows| - 1]) {
        forall i | 0 <= i < |rows| ensures !LookupFails(lookup, rows[i]) {
          if i < |init| { assert rows[i] == init[i]; }
        }
      }
    }
  }

  /** When no lookup raises, the dictionary has an entry for exactly the keys of the rows. */
  lemma {:induction false} StatusMapKeys(rows: seq<PersonRow>, lookup: Lookup, hash: Hash)
    requires StatusMap(rows, lookup, hash).Ok?
    ensures forall k :: k in StatusMap(rows, lookup, hash).value
                        <==> exists i :: 0 <= i < |rows| && KeyOf(hash, rows[i]) == k
  {
    if rows != [] {
      var init := rows[..|rows| - 1];
      var last := rows[|rows| - 1];
      StatusMapKeys(init, lookup, hash);
      var m0 := StatusMap(init, lookup, hash).value;
      var m := StatusMap(rows, lookup, hash).value;
      assert m.Keys == m0.Keys + {KeyOf(hash, last)};
      forall k ensures k in m <==> exists i :: 0 <= i < |rows| && KeyOf(hash, rows[i]) == k {
        if k in m && k != KeyOf(hash, last) {
          var i :| 0 <= i < |init| && KeyOf(hash, init[i]) == k;
          assert rows[i] == init[i];
        }
        if exists i :: 0 <= i < |rows| && KeyOf(hash, rows[i]) == k {
          var i :| 0 <= i < |rows| && KeyOf(hash, rows[i]) == k;
          if i < |init| { assert init[i] == rows[i]; }
        }
      }
    }
  }

  /** No row after `i` has the key of row `i`. */
  predicate LastWithKey(hash: Hash, rows: seq<PersonRow>, i: nat)
    requires i < |rows|
  {
    forall j :: i < j < |rows| ==> KeyOf(hash, rows[j]) != KeyOf(hash, rows[i])
  }

  /**
   * A later row with the same key overwrites an earlier one: the entry of a
   * key is built from the last row that has it.
   */
  lemma {:induction false} StatusMapLastRowWins(rows: seq<PersonRow>, lookup: Lookup, hash: Hash, i: nat)
    requires StatusMap(rows, lookup, hash).Ok?
    requires i < |rows| && LastWithKey(hash, rows, i)
    ensures !LookupFails(lookup, rows[i])
    ensures var m := StatusMap(rows, lookup, hash).value;
            KeyOf(hash, rows[i]) in m && m[KeyOf(hash, rows[i])] == EntryOf(lookup, rows[i])
  {
    var init := rows[..|rows| - 1];
    if i < |init| {
      assert rows[i] == init[i];
      assert LastWithKey(hash, init, i) by {
        forall j | i < j < |init| ensures KeyOf(hash, init[j]) != KeyOf(hash, init[i]) {
          assert init[j] == rows[j];
        }
      }
      assert KeyOf(hash, rows[|rows| - 1]) != KeyOf(hash, rows[i]);
      StatusMapLastRowWins(init, lookup, hash, i);
    }
  }
}
