/**
 * The users seed at server start: the simple CSV parser that turns
 * users.csv into one record per line after the header, and the loop that
 * inserts each user whose email is not yet registered, counting inserted
 * and skipped users. The file read, the password hash of the initial
 * password and the database calls are inputs: the emails already
 * registered and, per user, whether its insert succeeds.
 */
module UserSeed {
  import opened Text

  // ---------------------------------------------------------------------
  // Parsing users.csv

  /** One parsed line: trimmed header name to trimmed value. */
  type CsvUser = map<string, string>

  /** `values[index]?.trim() || ''` over the trimmed fields: a missing
      trailing field is empty. */
  function FieldValue(fields: seq<string>, j: nat): string {
    if j < |fields| then fields[j] else ""
  }

  /** The header names, each trimmed. */
  function TrimAll(headers: seq<string>): (names: seq<string>)
    ensures |names| == |headers|
    decreases |headers|
  {
    if headers == [] then [] else TrimAll(headers[..|headers| - 1]) + [Trim(headers[|headers| - 1])]
  }

  /** Name `i` is header `i` trimmed. */
  lemma {:induction false} TrimAllAt(headers: seq<string>, i: nat)
    requires i < |headers|
    ensures TrimAll(headers)[i] == Trim(headers[i])
    decreases |headers|
  {
    if i < |headers| - 1 {
      TrimAllAt(headers[..|headers| - 1], i);
    }
  }

  /** No later name among the first `n` equals name `j`. */
  predicate LastWithName(names: seq<string>, j: nat, n: nat)
    requires j < n <= |names|
  {
    forall j' :: j < j' < n ==> names[j'] != names[j]
  }

  /** The keys are the first `n` names. */
  ghost predicate KeysAreNames(u: CsvUser, names: seq<string>, n: nat)
    requires n <= |names|
  {
    forall k :: k in u <==> k in names[..n]
  }

  /** Each name holds the value of the last of the first `n` fields with that name. */
  ghost predicate ValuesAreFields(u: CsvUser, names: seq<string>, values: seq<string>, n: nat)
    requires n <= |names|
  {
    forall j {:trigger LastWithName(names, j, n)} :: 0 <= j < n && LastWithName(names, j, n) ==>
      names[j] in u && u[names[j]] == FieldValue(values, j)
  }

  /** The record the `forEach` over the first `n` header names builds. */
  function UserOf(names: seq<string>, values: seq<string>, n: nat): (u: CsvUser)
    requires n <= |names|
  {
    if n == 0 then map[] else UserOf(names, values, n - 1)[names[n - 1] := FieldValue(values, n - 1)]
  }

  /** The record has a key per name, holding the value of the last field
      with that name. */
  lemma {:induction false} UserOfFields(names: seq<string>, values: seq<string>, n: nat)
    requires n <= |names|
    ensures KeysAreNames(UserOf(names, values, n), names, n)
    ensures ValuesAreFields(UserOf(names, values, n), names, values, n)
  {
    if n > 0 {
      UserOfFields(names, values, n - 1);
      var u0 := UserOf(names, values, n - 1);
      UserOfStep(names, values, n, u0, u0[names[n - 1] := FieldValue(values, n - 1)]);
    }
  }

  lemma UserOfStep(names: seq<string>, values: seq<string>, n: nat, u0: CsvUser, u: CsvUser)
    requires 0 < n <= |names|
    requires KeysAreNames(u0, names, n - 1) && ValuesAreFields(u0, names, values, n - 1)
    requires u == u0[names[n - 1] := FieldValue(values, n - 1)]
    ensures KeysAreNames(u, names, n) && ValuesAreFields(u, names, values, n)
  {
    assert names[..n] == names[..n - 1] + [names[n - 1]];
    forall j | 0 <= j < n && LastWithName(names, j, n)
      ensures names[j] in u && u[names[j]] == FieldValue(values, j)
    {
      assert names[..n][j] == names[j];
      if j < n - 1 {
        assert LastWithName(names, j, n - 1);
        assert names[..n - 1][j] == names[j];
      }
    }
  }

  /** The `headers.forEach` of one line, over the trimmed header names
      and the line's trimmed fields. */
  method ParseLine(names: seq<string>, fields: seq<string>) returns (user: CsvUser)
    ensures user == UserOf(names, fields, |names|)
  {
    user := map[];
    var index := 0;
    while index < |names|
      invariant 0 <= index <= |names|
      invariant user == UserOf(names, fields, index)
    {
      user := user[names[index] := FieldValue(fields, index)];
      index := index + 1;
    }
  }

  /** The record parsed from one line. */
  function LineUser(headers: seq<string>, line: string): CsvUser {
    UserOf(TrimAll(headers), TrimAll(Split(line, ',')), |headers|)
  }

  /** The lines of the file after trimming it. */
  function Lines(content: string): (lines: seq<string>)
    ensures |lines| >= 1
  {
    Split(Trim(content), '\n')
  }

  /** The header names, from the first line. */
  function Headers(content: string): seq<string> {
    Split(Lines(content)[0], ',')
  }

  /** One line: its fields split on commas and trimmed, then recorded
      under the header names. */
  method ParseLineOf(headers: seq<string>, names: seq<string>, line: string) returns (user: CsvUser)
    requires names == TrimAll(headers)
    ensures user == LineUser(headers, line)
  {
    user := ParseLine(names, TrimAll(Split(line, ',')));
  }

  /** The parsing loop of `initializeUsers`: one record per line after
      the header, in line order. */
  method ParseUsers(content: string) returns (users: seq<CsvUser>)
    ensures |users| == |Lines(content)| - 1
    ensures forall i :: 0 <= i < |users| ==>
      users[i] == LineUser(Headers(content), Lines(content)[i + 1])
  {
    users := ParseLinesAfterHeader(Headers(content), Lines(content));
  }

  /** The loop over lines 1.. of the file. */
  method ParseLinesAfterHeader(headers: seq<string>, lines: seq<string>) returns (users: seq<CsvUser>)
    requires |lines| >= 1
    ensures |users| == |lines| - 1
    ensures forall i :: 0 <= i < |users| ==> users[i] == LineUser(headers, lines[i + 1])
  {
    var names := TrimAll(headers);
    ghost var parse := (line: string) => LineUser(headers, line);
    users := [];
    var i := 1;
    while i < |lines|
      invariant 1 <= i <= |lines|
      invariant users == MapFrom(parse, lines, i)
    {
      var user := ParseLineOf(headers, names, lines[i]);
      users := users + [user];
      i := i + 1;
    }
    MapFromAt(parse, lines, i);
  }

  /** `f` applied to lines 1..n-1. */
  function MapFrom<T>(f: string -> T, lines: seq<string>, n: nat): seq<T>
    requires 1 <= n <= |lines|
  {
    if n == 1 then [] else MapFrom(f, lines, n - 1) + [f(lines[n - 1])]
  }

  lemma {:induction false} MapFromAt<T>(f: string -> T, lines: seq<string>, n: nat)
    requires 1 <= n <= |lines|
    ensures |MapFrom(f, lines, n)| == n - 1
    ensures forall k :: 0 <= k < n - 1 ==> MapFrom(f, lines, n)[k] == f(lines[k + 1])
  {
    if n > 1 {
      MapFromAt(f, lines, n - 1);
    }
  }

  /** Every parsed record has exactly the trimmed header names as keys,
      whatever the number of fields on its line. */
  lemma ParsedUserKeys(headers: seq<string>, line: string, k: string)
    ensures k in LineUser(headers, line) <==> exists h :: h in headers && Trim(h) == k
  {
    KeysOfLine(headers, line, k);
    TrimmedHeaderName(headers, k);
  }

  /** The keys of a line's record are the header names. */
  lemma KeysOfLine(headers: seq<string>, line: string, k: string)
    ensures k in LineUser(headers, line) <==> k in TrimAll(headers)
  {
    var names := TrimAll(headers);
    UserOfFields(names, TrimAll(Split(line, ',')), |headers|);
    assert names[..|headers|] == names;
  }

  /** A header name is a trimmed header. */
  lemma TrimmedHeaderName(headers: seq<string>, k: string)
    ensures k in TrimAll(headers) <==> exists h :: h in headers && Trim(h) == k
  {
    var names := TrimAll(headers);
    if k in names {
      var j :| 0 <= j < |names| && names[j] == k;
      TrimAllAt(headers, j);
      assert headers[j] in headers && Trim(headers[j]) == k;
    }
    if exists h :: h in headers && Trim(h) == k {
      var h :| h in headers && Trim(h) == k;
      var j :| 0 <= j < |headers| && headers[j] == h;
      TrimAllAt(headers, j);
      assert names[j] == k;
    }
  }

  /** A header's name holds the trimmed field at its position, or the
      empty string when the line has fewer fields; later headers with the
      same name win. */
  lemma ParsedUserValues(headers: seq<string>, line: string, j: nat)
    requires j < |headers| && LastWithName(TrimAll(headers), j, |headers|)
    ensures Trim(headers[j]) in LineUser(headers, line)
    ensures var values := Split(line, ',');
      LineUser(headers, line)[Trim(headers[j])] == (if j < |values| then Trim(values[j]) else "")
  {
    var names := TrimAll(headers);
    var values := Split(line, ',');
    UserOfFields(names, TrimAll(values), |headers|);
    assert names[..|headers|] == names;
    TrimAllAt(headers, j);
    if j < |values| {
      TrimAllAt(values, j);
    }
  }

  // ---------------------------------------------------------------------
  // Inserting the users

  const InitialPassword := "1234"

  /** `user.email` and the other fields, empty when the header is missing. */
  function Field(u: CsvUser, k: string): string { if k in u then u[k] else "" }

  /** The users row inserted for a CSV user: the initial password's hash,
      flagged as initial, and auto-login off. */
  datatype NewUser = NewUser(email: string, name: string, department: string, site: string, position: string,
                             phone: string, role: string, hashOf: string, isInitialPassword: bool, autoLogin: bool)

  function NewUserRow(u: CsvUser): (r: NewUser)
    ensures r.email == Field(u, "email") && r.department == Field(u, "dept")
    ensures r.hashOf == InitialPassword && r.isInitialPassword && !r.autoLogin
  {
    NewUser(Field(u, "email"), Field(u, "name"), Field(u, "dept"), Field(u, "site"), Field(u, "position"),
            Field(u, "phone"), Field(u, "role"), InitialPassword, true, false)
  }

  /** The counters, the inserts sent, and the registered emails after a run. */
  datatype SeedState = SeedState(inserted: nat, skipped: nat, attempted: seq<NewUser>, registered: set<string>)

  /** The insert loop over the users: a user whose email is registered is
      skipped; anyone else is inserted, and counted and registered when
      `insertOk` says the insert succeeded. */
  function Seeded(users: seq<CsvUser>, existing: set<string>, insertOk: seq<bool>): (s: SeedState)
    requires |insertOk| == |users|
    ensures |s.attempted| + s.skipped == |users|
    ensures s.inserted <= |s.attempted|
    ensures s.inserted + s.skipped <= |users|
    ensures existing <= s.registered
    ensures forall a :: a in s.attempted ==> a.email !in existing
    decreases |users|
  {
    if users == [] then SeedState(0, 0, [], existing)
    else
      var prev := Seeded(users[..|users| - 1], existing, insertOk[..|users| - 1]);
      var u := users[|users| - 1];
      if Field(u, "email") in prev.registered then SeedState(prev.inserted, prev.skipped + 1, prev.attempted, prev.registered)
      else if insertOk[|users| - 1] then
        SeedState(prev.inserted + 1, prev.skipped, prev.attempted + [NewUserRow(u)], prev.registered + {Field(u, "email")})
      else SeedState(prev.inserted, prev.skipped, prev.attempted + [NewUserRow(u)], prev.registered)
  }

  /** The `for (const user of users)` loop; `total` is the number of users. */
  method InsertUsers(users: seq<CsvUser>, existing: set<string>, insertOk: seq<bool>)
    returns (inserted: nat, skipped: nat, total: nat, attempted: seq<NewUser>)
    requires |insertOk| == |users|
    ensures total == |users|
    ensures inserted == Seeded(users, existing, insertOk).inserted
    ensures skipped == Seeded(users, existing, insertOk).skipped
    ensures attempted == Seeded(users, existing, insertOk).attempted
  {
    inserted, skipped, attempted := 0, 0, [];
    var registered := existing;
    var n := 0;
    while n < |users|
      invariant 0 <= n <= |users|
      invariant Seeded(users[..n], existing, insertOk[..n]) == SeedState(inserted, skipped, attempted, registered)
    {
      assert users[..n + 1][..n] == users[..n] && insertOk[..n + 1][..n] == insertOk[..n];
      var user := users[n];
      if Field(user, "email") in registered {
        skipped := skipped + 1;
      } else {
        attempted := attempted + [NewUserRow(user)];
        if insertOk[n] {
          inserted := inserted + 1;
          registered := registered + {Field(user, "email")};
        }
      }
      n := n + 1;
    }
    assert users[..n] == users && insertOk[..n] == insertOk;
    total := |users|;
  }

  /** The emails of the CSV users. */
  function Emails(users: seq<CsvUser>): (es: set<string>)
    ensures forall u :: u in users ==> Field(u, "email") in es
  {
    set u | u in users :: Field(u, "email")
  }

  /** The emails of the rows the seed sent. */
  function AttemptedEmails(attempted: seq<NewUser>): (es: set<string>)
    ensures forall i :: 0 <= i < |attempted| ==> attempted[i].email in es
  {
    set a | a in attempted :: a.email
  }

  /** What a run in which every insert succeeds promises: each email
      not already registered is sent exactly once, and every other row is
      skipped. */
  predicate OnceEachNewEmail(s: SeedState, users: seq<CsvUser>, existing: set<string>) {
    && s.inserted == |s.attempted|
    && (forall i, j :: 0 <= i < j < |s.attempted| ==> s.attempted[i].email != s.attempted[j].email)
    && AttemptedEmails(s.attempted) == Emails(users) - existing
    && s.registered == existing + Emails(users)
  }

  /** One successful step of the loop keeps `OnceEachNewEmail`. */
  lemma SeedStep(prev: SeedState, front: seq<CsvUser>, u: CsvUser, existing: set<string>)
    requires OnceEachNewEmail(prev, front, existing)
    ensures var e := Field(u, "email");
      OnceEachNewEmail(
        if e in prev.registered then SeedState(prev.inserted, prev.skipped + 1, prev.attempted, prev.registered)
        else SeedState(prev.inserted + 1, prev.skipped, prev.attempted + [NewUserRow(u)], prev.registered + {e}),
        front + [u], existing)
  {
    var e := Field(u, "email");
    assert Emails(front + [u]) == Emails(front) + {e} by {
      assert forall v :: v in front + [u] <==> v in front || v == u;
    }
    if e !in prev.registered {
      var next := prev.attempted + [NewUserRow(u)];
      assert AttemptedEmails(next) == AttemptedEmails(prev.attempted) + {e} by {
        assert forall a :: a in next <==> a in prev.attempted || a == NewUserRow(u);
      }
      assert forall i :: 0 <= i < |prev.attempted| ==> next[i] == prev.attempted[i];
    }
  }

  /** When every insert succeeds, the seed inserts each email that is not
      already registered exactly once: no two inserts share an email, the
      inserted emails are the CSV's emails less the existing ones, and every
      other row is skipped. */
  lemma {:induction false} SeedInsertsEachNewEmailOnce(users: seq<CsvUser>, existing: set<string>, insertOk: seq<bool>)
    requires |insertOk| == |users| && forall i :: 0 <= i < |insertOk| ==> insertOk[i]
    ensures OnceEachNewEmail(Seeded(users, existing, insertOk), users, existing)
    decreases |users|
  {
    if users == [] {
      assert Emails(users) == {};
      assert AttemptedEmails([]) == {};
    } else {
      var n := |users| - 1;
      var front, okFront := users[..n], insertOk[..n];
      assert users == front + [users[n]];
      assert forall i :: 0 <= i < |okFront| ==> okFront[i] == insertOk[i];
      SeedInsertsEachNewEmailOnce(front, existing, okFront);
      SeedStep(Seeded(front, existing, okFront), front, users[n], existing);
    }
  }
}
