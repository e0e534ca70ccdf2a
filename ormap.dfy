/** The in-memory state of an EnviOrMapBase record: the row last read from
    or written to the database (_from_hydrate), the working copy (to_save)
    and the dirty flag (_is_modify); the accessor names the magic __call
    understands; and which database action save and delete choose. The
    database handle is a recorder of the calls made on it. */
module OrMap {

  /** A column value: PHP null, an integer or a string. */
  datatype Value = Null | Int(i: int) | Str(s: string)

  /** A row: column name -> value. */
  type Row = map<string, Value>

  /** PHP isset($row[$k]): the key is present with a non-null value. */
  predicate IsSet(row: Row, k: string)
  {
    k in row && row[k] != Null
  }

  /** isset($row[$k]) ? $row[$k] : NULL */
  function Lookup(row: Row, k: string): (v: Value)
    ensures v != Null <==> IsSet(row, k)
    ensures IsSet(row, k) ==> v == row[k]
  {
    if IsSet(row, k) then row[k] else Null
  }

  /** $pkeys[0]: on an empty key list this reads null, which as an array key
      is the empty string. */
  function FirstKey(pkeys: seq<string>): string
  {
    if |pkeys| > 0 then pkeys[0] else ""
  }

  // ---------------------------------------------------------------------
  // Record state and its transitions

  datatype RecordState = RecordState(fromHydrate: Row, toSave: Row, isModify: bool)

  /** Writing one column: the record becomes dirty. */
  function Assigned(s: RecordState, name: string, v: Value): RecordState
  {
    RecordState(s.fromHydrate, s.toSave[name := v], true)
  }

  /** What save does. */
  datatype SaveAction = Insert | NoChange | Update

  /** save inserts when the first primary key is not set in the hydrated
      row, does nothing when the record is clean, and updates otherwise. */
  function SaveDecision(s: RecordState, pkeys: seq<string>): (a: SaveAction)
    ensures a == Insert <==> !IsSet(s.fromHydrate, FirstKey(pkeys))
    ensures a == NoChange <==> IsSet(s.fromHydrate, FirstKey(pkeys)) && !s.isModify
    ensures a == Update <==> IsSet(s.fromHydrate, FirstKey(pkeys)) && s.isModify
  {
    if !IsSet(s.fromHydrate, FirstKey(pkeys)) then Insert
    else if !s.isModify then NoChange
    else Update
  }

  /** The working copy after an insert: the first primary key is filled from
      the last insert id only when the row does not set it already. */
  function InsertedRow(toSave: Row, pk: string, insertId: Value): (r: Row)
    ensures IsSet(toSave, pk) ==> r == toSave
    ensures !IsSet(toSave, pk) ==> r == toSave[pk := insertId]
  {
    if IsSet(toSave, pk) then toSave else toSave[pk := insertId]
  }

  /** The state after save. */
  function Saved(s: RecordState, pkeys: seq<string>, insertId: Value): RecordState
  {
    match SaveDecision(s, pkeys)
    case Insert =>
      var row := InsertedRow(s.toSave, FirstKey(pkeys), insertId);
      RecordState(row, row, false)
    case NoChange => s
    case Update => RecordState(s.toSave, s.toSave, false)
  }

  /** The WHERE part of the update: each primary key with its hydrated
      value (null when the hydrated row does not set it). */
  function WhereOf(pkeys: seq<string>, row: Row): seq<(string, Value)>
    decreases |pkeys|
  {
    if pkeys == [] then []
    else
      var k := pkeys[|pkeys| - 1];
      WhereOf(pkeys[..|pkeys| - 1], row) + [(k, Lookup(row, k))]
  }

  /** Every primary key is set in the row. */
  predicate AllKeysSet(row: Row, pkeys: seq<string>)
  {
    forall i :: 0 <= i < |pkeys| ==> IsSet(row, pkeys[i])
  }

  /** The bound parameters of the delete query: the primary keys' values. */
  function KeyValues(pkeys: seq<string>, row: Row): seq<Value>
    decreases |pkeys|
  {
    if pkeys == [] then []
    else KeyValues(pkeys[..|pkeys| - 1], row) + [Lookup(row, pkeys[|pkeys| - 1])]
  }

  /** The state after delete: only the dirty flag changes, and only when
      every primary key is set. */
  function Deleted(s: RecordState, pkeys: seq<string>): RecordState
  {
    if AllKeysSet(s.fromHydrate, pkeys) then s.(isModify := false) else s
  }

  // ---------------------------------------------------------------------
  // The database handle

  /** The calls save and delete make on the database handle. */
  datatype DbCall =
    | InsertCall(table: string, row: Row)
    | LastInsertIdCall
    | UpdateCall(table: string, row: Row, where: seq<(string, Value)>)
    | QueryCall(table: string, keys: seq<string>, args: seq<Value>)

  /** The calls save makes. */
  function SaveCalls(s: RecordState, table: string, pkeys: seq<string>): seq<DbCall>
  {
    match SaveDecision(s, pkeys)
    case Insert =>
      [InsertCall(table, s.toSave)] + (if IsSet(s.toSave, FirstKey(pkeys)) then [] else [LastInsertIdCall])
    case NoChange => []
    case Update => [UpdateCall(table, s.toSave, WhereOf(pkeys, s.fromHydrate))]
  }

  /** The calls delete makes. */
  function DeleteCalls(s: RecordState, table: string, pkeys: seq<string>): seq<DbCall>
  {
    if AllKeysSet(s.fromHydrate, pkeys) then [QueryCall(table, pkeys, KeyValues(pkeys, s.fromHydrate))] else []
  }

  /** A database handle that records the calls made on it; lastInsertId
      answers with a fixed value. */
  class Dbi {
    var calls: seq<DbCall>
    const insertId: Value

    constructor (insertId: Value)
      ensures calls == [] && this.insertId == insertId
    {
      calls := [];
      this.insertId := insertId;
    }

    method AutoInsert(table: string, row: Row)
      modifies this
      ensures calls == old(calls) + [InsertCall(table, row)]
    {
      calls := calls + [InsertCall(table, row)];
    }

    method LastInsertId() returns (id: Value)
      modifies this
      ensures id == insertId
      ensures calls == old(calls) + [LastInsertIdCall]
    {
      calls := calls + [LastInsertIdCall];
      id := insertId;
    }

    method AutoUpdate(table: string, row: Row, where: seq<(string, Value)>)
      modifies this
      ensures calls == old(calls) + [UpdateCall(table, row, where)]
    {
      calls := calls + [UpdateCall(table, row, where)];
    }

    method Query(table: string, keys: seq<string>, args: seq<Value>)
      modifies this
      ensures calls == old(calls) + [QueryCall(table, keys, args)]
    {
      calls := calls + [QueryCall(table, keys, args)];
    }
  }

  // ---------------------------------------------------------------------
  // Accessor names

  predicate IsUpper(c: char)
  {
    'A' <= c <= 'Z'
  }

  predicate IsLowerLetter(c: char)
  {
    'a' <= c <= 'z'
  }

  predicate IsDigit(c: char)
  {
    '0' <= c <= '9'
  }

  /** strtolower on one ASCII character. */
  function ToLower(c: char): char
  {
    if IsUpper(c) then (c as int + 32) as char else c
  }

  function ToUpper(c: char): char
  {
    if IsLowerLetter(c) then (c as int - 32) as char else c
  }

  function LowerAll(s: string): (r: string)
    ensures |r| == |s|
    ensures forall i :: 0 <= i < |s| ==> r[i] == ToLower(s[i])
  {
    seq(|s|, i requires 0 <= i < |s| => ToLower(s[i]))
  }

  /** The replacement of ([A-Z]) by _\1: an underscore before every
      uppercase letter. */
  function Underscored(s: string): string
    decreases |s|
  {
    if s == [] then []
    else (if IsUpper(s[0]) then ['_', s[0]] else [s[0]]) + Underscored(s[1..])
  }

  /** substr($s, $n): empty when the string is not longer than n. */
  function DropPrefix(s: string, n: nat): string
  {
    if |s| <= n then [] else s[n..]
  }

  /** The column key __call derives from a method name. */
  function AccessorKey(name: string): string
  {
    LowerAll(DropPrefix(Underscored(name), 4))
  }

  predicate StartsWith(s: string, prefix: string)
  {
    |prefix| <= |s| && s[..|prefix|] == prefix
  }

  datatype Accessor = Getter(key: string) | Setter(key: string) | NotAccessor

  /** How __call reads a method name: a getter if it starts with "get", else
      a setter if it starts with "set", else no accessor. */
  function AccessorOf(name: string): (a: Accessor)
    ensures StartsWith(name, "get") <==> a.Getter?
    ensures !StartsWith(name, "get") && StartsWith(name, "set") <==> a.Setter?
    ensures a.Getter? || a.Setter? ==> a.key == AccessorKey(name)
  {
    if StartsWith(name, "get") then Getter(AccessorKey(name))
    else if StartsWith(name, "set") then Setter(AccessorKey(name))
    else NotAccessor
  }

  /** $arguments[0], null when no argument is given. */
  function FirstArgument(arguments: seq<Value>): Value
  {
    if |arguments| > 0 then arguments[0] else Null
  }

  /** What __call returns. */
  datatype CallResult = Returned(v: Value) | UndefinedMethod(name: string)

  // ---------------------------------------------------------------------
  // The record

  class Record {
    var fromHydrate: Row
    var toSave: Row
    var isModify: bool
    const tableName: string
    const pkeys: seq<string>

    ghost function State(): RecordState
      reads this
    {
      RecordState(fromHydrate, toSave, isModify)
    }

    /** A new record is dirty and holds no data. */
    constructor (tableName: string, pkeys: seq<string>)
      ensures fromHydrate == map[] && toSave == map[] && isModify
      ensures this.tableName == tableName && this.pkeys == pkeys
    {
      this.tableName := tableName;
      this.pkeys := pkeys;
      fromHydrate := map[];
      toSave := map[];
      isModify := true;
    }

    /** hydrate: the row read from the database becomes both the snapshot
        and the working copy, and the record is clean. */
    method Hydrate(arr: Row)
      modifies this
      ensures fromHydrate == arr && toSave == arr && !isModify
    {
      isModify := false;
      fromHydrate := arr;
      toSave := arr;
    }

    /** toArray: the working copy. */
    function ToArray(): (r: Row)
      reads this
      ensures r == toSave
    {
      toSave
    }

    /** __set: one column of the working copy is written and the record
        becomes dirty. */
    method Set(name: string, value: Value)
      modifies this
      ensures State() == Assigned(old(State()), name, value)
    {
      isModify := true;
      toSave := toSave[name := value];
    }

    /** __get: the column's value, null when it is not set. */
    function Get(name: string): (v: Value)
      reads this
      ensures v == Lookup(toSave, name)
    {
      if name in toSave && toSave[name] != Null then toSave[name] else Null
    }

    /** __call: getX reads and setX writes the column AccessorKey derives
        from the name; any other name is an undefined method. */
    method Call(name: string, arguments: seq<Value>) returns (r: CallResult)
      modifies this
      ensures AccessorOf(name).Getter? ==>
                r == Returned(Lookup(toSave, AccessorOf(name).key)) && State() == old(State())
      ensures AccessorOf(name).Setter? ==>
                r == Returned(Null) &&
                State() == Assigned(old(State()), AccessorOf(name).key, FirstArgument(arguments))
      ensures AccessorOf(name).NotAccessor? ==> r == UndefinedMethod(name) && State() == old(State())
    {
      if StartsWith(name, "get") {
        var key := AccessorKey(name);
        r := Returned(Get(key));
      } else if StartsWith(name, "set") {
        var key := AccessorKey(name);
        toSave := toSave[key := FirstArgument(arguments)];
        isModify := true;
        r := Returned(Null);
      } else {
        r := UndefinedMethod(name);
      }
    }

    /** save: insert, nothing, or update, as SaveDecision says. */
    method Save(dbi: Dbi) returns (a: SaveAction)
      modifies this, dbi
      ensures a == SaveDecision(old(State()), pkeys)
      ensures State() == Saved(old(State()), pkeys, dbi.insertId)
      ensures dbi.calls == old(dbi.calls) + SaveCalls(old(State()), tableName, pkeys)
    {
      var pk := FirstKey(pkeys);
      if !IsSet(fromHydrate, pk) {
        dbi.AutoInsert(tableName, toSave);
        if !IsSet(toSave, pk) {
          var id := dbi.LastInsertId();
          toSave := toSave[pk := id];
        }
        fromHydrate := toSave;
        isModify := false;
        return Insert;
      }
      if !isModify {
        return NoChange;
      }
      var where := [];
      for i := 0 to |pkeys|
        invariant where == WhereOf(pkeys[..i], fromHydrate)
      {
        assert pkeys[..i + 1][..i] == pkeys[..i];
        where := where + [(pkeys[i], Lookup(fromHydrate, pkeys[i]))];
      }
      assert pkeys[..|pkeys|] == pkeys;
      dbi.AutoUpdate(tableName, toSave, where);
      fromHydrate := toSave;
      isModify := false;
      return Update;
    }

    /** delete: fails, changing nothing and calling nothing, when a primary
        key is not set in the hydrated row; otherwise runs the delete query
        and clears the dirty flag. ok == true stands for the source's null
        return, ok == false for its false. */
    method Delete(dbi: Dbi) returns (ok: bool)
      modifies this, dbi
      ensures ok == AllKeysSet(old(fromHydrate), pkeys)
      ensures State() == Deleted(old(State()), pkeys)
      ensures dbi.calls == old(dbi.calls) + DeleteCalls(old(State()), tableName, pkeys)
    {
      var args := [];
      for i := 0 to |pkeys|
        invariant args == KeyValues(pkeys[..i], fromHydrate)
        invariant AllKeysSet(fromHydrate, pkeys[..i])
      {
        assert pkeys[..i + 1][..i] == pkeys[..i];
        if !IsSet(fromHydrate, pkeys[i]) {
          return false;
        }
        args := args + [fromHydrate[pkeys[i]]];
      }
      assert pkeys[..|pkeys|] == pkeys;
      dbi.Query(tableName, pkeys, args);
      isModify := false;
      return true;
    }
  }

  // ---------------------------------------------------------------------
  // Properties

  /** toArray straight after hydrate(arr) gives arr back. */
  method HydrateThenToArray(rec: Record, arr: Row) returns (r: Row)
    modifies rec
    ensures r == arr
    ensures rec.fromHydrate == arr && !rec.isModify
  {
    rec.Hydrate(arr);
    r := rec.ToArray();
  }

  /** toArray after __set(name, v) is the earlier toArray with that one
      column written; every other column is as before. */
  method SetThenToArray(rec: Record, name: string, v: Value) returns (r: Row)
    modifies rec
    ensures r == old(rec.ToArray())[name := v]
    ensures Lookup(r, name) == v
    ensures forall other :: other != name ==> Lookup(r, other) == Lookup(old(rec.ToArray()), other)
  {
    rec.Set(name, v);
    r := rec.ToArray();
  }

  /** A column written with __set reads back with __get (null stays null);
      every other column reads as before. */
  lemma AssignedThenLookup(s: RecordState, name: string, v: Value, other: string)
    ensures Lookup(Assigned(s, name, v).toSave, name) == v
    ensures other != name ==> Lookup(Assigned(s, name, v).toSave, other) == Lookup(s.toSave, other)
    ensures Assigned(s, name, v).isModify
  {
  }

  /** A hydrated row with its first primary key set is not inserted again:
      save does nothing until a column is written, and updates after. */
  lemma HydratedSavesAsUpdate(arr: Row, pkeys: seq<string>, name: string, v: Value)
    requires IsSet(arr, FirstKey(pkeys))
    ensures SaveDecision(RecordState(arr, arr, false), pkeys) == NoChange
    ensures SaveDecision(Assigned(RecordState(arr, arr, false), name, v), pkeys) == Update
  {
  }

  /** Hydrating a row that does not set the first primary key leaves save on
      the insert path, written or not. */
  lemma HydratedWithoutKeyInserts(arr: Row, pkeys: seq<string>, name: string, v: Value)
    requires !IsSet(arr, FirstKey(pkeys))
    ensures SaveDecision(RecordState(arr, arr, false), pkeys) == Insert
    ensures SaveDecision(Assigned(RecordState(arr, arr, false), name, v), pkeys) == Insert
  {
  }

  /** A fresh record is inserted. */
  lemma FreshRecordInserts(pkeys: seq<string>)
    ensures SaveDecision(RecordState(map[], map[], true), pkeys) == Insert
  {
  }

  /** After save the record is clean, and after an insert or an update the
      snapshot equals the working copy. */
  lemma SavedIsClean(s: RecordState, pkeys: seq<string>, insertId: Value)
    ensures !Saved(s, pkeys, insertId).isModify
    ensures SaveDecision(s, pkeys) != NoChange ==>
              Saved(s, pkeys, insertId).fromHydrate == Saved(s, pkeys, insertId).toSave
    ensures SaveDecision(s, pkeys) == NoChange ==> Saved(s, pkeys, insertId) == s
  {
  }

  /** A second save right after one that wrote the row does nothing, as long
      as the saved row sets the first primary key: it was set in the working
      copy already, or an insert filled it from a non-null insert id. */
  lemma SaveTwiceSavesOnce(s: RecordState, pkeys: seq<string>, table: string, insertId: Value)
    requires SaveDecision(s, pkeys) != NoChange
    requires IsSet(s.toSave, FirstKey(pkeys)) || (SaveDecision(s, pkeys) == Insert && insertId != Null)
    ensures SaveDecision(Saved(s, pkeys, insertId), pkeys) == NoChange
    ensures SaveCalls(Saved(s, pkeys, insertId), table, pkeys) == []
  {
  }

  /** The update query binds every primary key, in order, to its value in
      the hydrated row. */
  lemma {:induction false} WhereBindsKeys(pkeys: seq<string>, row: Row)
    ensures |WhereOf(pkeys, row)| == |pkeys|
    ensures forall i :: 0 <= i < |pkeys| ==> WhereOf(pkeys, row)[i] == (pkeys[i], Lookup(row, pkeys[i]))
    decreases |pkeys|
  {
    if pkeys != [] {
      WhereBindsKeys(pkeys[..|pkeys| - 1], row);
    }
  }

  /** The delete query's parameters are the primary keys' values, in order. */
  lemma {:induction false} DeleteBindsKeys(pkeys: seq<string>, row: Row)
    requires AllKeysSet(row, pkeys)
    ensures |KeyValues(pkeys, row)| == |pkeys|
    ensures forall i :: 0 <= i < |pkeys| ==> KeyValues(pkeys, row)[i] == row[pkeys[i]]
    decreases |pkeys|
  {
    if pkeys != [] {
      var p := pkeys[..|pkeys| - 1];
      assert AllKeysSet(row, p) by {
        forall i | 0 <= i < |p|
          ensures IsSet(row, p[i])
        {
          assert p[i] == pkeys[i];
        }
      }
      DeleteBindsKeys(p, row);
    }
  }

  /** A delete that fails leaves the record and the handle alone; one that
      succeeds makes exactly one query and changes only the dirty flag. */
  lemma DeleteEffect(s: RecordState, table: string, pkeys: seq<string>)
    ensures !AllKeysSet(s.fromHydrate, pkeys) ==> Deleted(s, pkeys) == s && DeleteCalls(s, table, pkeys) == []
    ensures AllKeysSet(s.fromHydrate, pkeys) ==>
              && Deleted(s, pkeys) == RecordState(s.fromHydrate, s.toSave, false)
              && |DeleteCalls(s, table, pkeys)| == 1
  {
  }

  // ---------------------------------------------------------------------
  // Accessor names: the round trip from a column key

  /** The tail of a snake_case column key after its first letter: lowercase
      letters and digits, each underscore followed by a lowercase letter. */
  predicate SnakeTail(t: string)
    decreases |t|
  {
    || t == []
    || (|t| >= 2 && t[0] == '_' && IsLowerLetter(t[1]) && SnakeTail(t[2..]))
    || ((IsLowerLetter(t[0]) || IsDigit(t[0])) && SnakeTail(t[1..]))
  }

  predicate SnakeKey(k: string)
  {
    |k| > 0 && IsLowerLetter(k[0]) && SnakeTail(k[1..])
  }

  /** The CamelCase spelling of a key tail: "_n" becomes "N". */
  function CamelTail(t: string): string
    decreases |t|
  {
    if t == [] then []
    else if |t| >= 2 && t[0] == '_' then [ToUpper(t[1])] + CamelTail(t[2..])
    else [t[0]] + CamelTail(t[1..])
  }

  /** The accessor suffix of a key: "user_name" becomes "UserName". */
  function Camel(k: string): string
    requires |k| > 0
  {
    [ToUpper(k[0])] + CamelTail(k[1..])
  }

  lemma {:induction false} UnderscoredConcat(a: string, b: string)
    ensures Underscored(a + b) == Underscored(a) + Underscored(b)
    decreases |a|
  {
    if a == [] {
      assert a + b == b;
    } else {
      var head := if IsUpper(a[0]) then ['_', a[0]] else [a[0]];
      assert (a + b)[0] == a[0];
      assert (a + b)[1..] == a[1..] + b;
      UnderscoredConcat(a[1..], b);
      assert Underscored(a + b) == head + (Underscored(a[1..]) + Underscored(b));
      assert Underscored(a) == head + Underscored(a[1..]);
    }
  }

  lemma LowerAllConcat(a: string, b: string)
    ensures LowerAll(a + b) == LowerAll(a) + LowerAll(b)
  {
  }

  /** Underscoring and lowering the CamelCase tail gives the key tail back. */
  lemma {:induction false} CamelTailBack(t: string)
    requires SnakeTail(t)
    ensures LowerAll(Underscored(CamelTail(t))) == t
    decreases |t|
  {
    if t != [] {
      if |t| >= 2 && t[0] == '_' {
        assert IsLowerLetter(t[1]) && SnakeTail(t[2..]);
        var u := ToUpper(t[1]);
        CamelTailBack(t[2..]);
        UnderscoredConcat([u], CamelTail(t[2..]));
        assert Underscored([u]) == ['_', u];
        LowerAllConcat(['_', u], Underscored(CamelTail(t[2..])));
        assert t == ['_', t[1]] + t[2..];
      } else {
        assert (IsLowerLetter(t[0]) || IsDigit(t[0])) && SnakeTail(t[1..]);
        CamelTailBack(t[1..]);
        UnderscoredConcat([t[0]], CamelTail(t[1..]));
        assert Underscored([t[0]]) == [t[0]];
        LowerAllConcat([t[0]], Underscored(CamelTail(t[1..])));
        assert t == [t[0]] + t[1..];
      }
    }
  }

  /** getXxx and setXxx, with Xxx the CamelCase spelling of a snake_case
      key, both address that key: getUserName and setUserName reach
      user_name. */
  lemma AccessorRoundTrip(k: string)
    requires SnakeKey(k)
    ensures AccessorOf("get" + Camel(k)) == Getter(k)
    ensures AccessorOf("set" + Camel(k)) == Setter(k)
  {
    PrefixRoundTrip("get", k);
    PrefixRoundTrip("set", k);
    assert ("get" + Camel(k))[..3] == "get";
    assert ("set" + Camel(k))[..3] == "set";
  }

  lemma PrefixRoundTrip(p: string, k: string)
    requires |p| == 3 && forall i :: 0 <= i < 3 ==> IsLowerLetter(p[i])
    requires SnakeKey(k)
    ensures AccessorKey(p + Camel(k)) == k
  {
    var u := ToUpper(k[0]);
    var rest := CamelTail(k[1..]);
    assert p + Camel(k) == p + ([u] + rest);
    UnderscoredConcat(p, [u] + rest);
    UnderscoredConcat([u], rest);
    assert Underscored(p) == p by {
      assert p == [p[0]] + ([p[1]] + [p[2]]);
      UnderscoredConcat([p[0]], [p[1]] + [p[2]]);
      UnderscoredConcat([p[1]], [p[2]]);
    }
    assert Underscored([u]) == ['_', u];
    var full := p + ['_', u] + Underscored(rest);
    assert Underscored(p + Camel(k)) == full;
    assert DropPrefix(full, 4) == [u] + Underscored(rest);
    LowerAllConcat([u], Underscored(rest));
    CamelTailBack(k[1..]);
    assert k == [k[0]] + k[1..];
  }

  /** The conversion drops the fourth character whatever it is: a getter
      written without a capital after "get" loses the key's first letter. */
  lemma LowercaseGetterLosesLetter()
    ensures AccessorOf("getname") == Getter("ame")
  {
    assert "getname"[..3] == "get";
    assert Underscored("getname") == "getname" by {
      UnderscoredConcat("get", "name");
      UnderscoredConcat("g", "et");
      UnderscoredConcat("e", "t");
      UnderscoredConcat("n", "ame");
      UnderscoredConcat("a", "me");
      UnderscoredConcat("m", "e");
    }
  }
}
