/**
 * The SQL text builder: statements with named placeholders, and the dictionaries of values that are
 * executed with them. Dictionaries are rewritten in place and keep their insertion order.
 */
module SqlText {
  import opened Options

  // ---------- Dictionaries ----------

  datatype Value = Text(text: string) | Number(number: int) | Time(second: int, micro: int)

  type Entries = seq<(string, Value)>

  predicate Has(e: Entries, k: string) {
    exists i :: 0 <= i < |e| && e[i].0 == k
  }

  predicate Distinct(e: Entries) {
    forall i, j :: 0 <= i < j < |e| ==> e[i].0 != e[j].0
  }

  function Keys(e: Entries): (ks: seq<string>)
    ensures |ks| == |e| && forall i :: 0 <= i < |e| ==> ks[i] == e[i].0
  {
    if e == [] then [] else Keys(e[..|e| - 1]) + [e[|e| - 1].0]
  }

  function Get(e: Entries, k: string): (v: Option<Value>)
    ensures v.Some? <==> Has(e, k)
    ensures v.Some? ==> (k, v.value) in e
  {
    if e == [] then None
    else if e[0].0 == k then Some(e[0].1)
    else
      assert Has(e, k) ==> Has(e[1..], k);
      Get(e[1..], k)
  }

  /** Assigning to a key keeps its place, or appends it. */
  function Put(e: Entries, k: string, v: Value): Entries {
    if e == [] then [(k, v)] else if e[0].0 == k then [(k, v)] + e[1..] else [e[0]] + Put(e[1..], k, v)
  }

  function Drop(e: Entries, k: string): Entries {
    if e == [] then [] else if e[0].0 == k then e[1..] else [e[0]] + Drop(e[1..], k)
  }

  function Merge(e: Entries, more: Entries): Entries {
    if more == [] then e else Put(Merge(e, more[..|more| - 1]), more[|more| - 1].0, more[|more| - 1].1)
  }

  lemma {:induction false} PutGet(e: Entries, k: string, v: Value, q: string)
    ensures Get(Put(e, k, v), q) == if q == k then Some(v) else Get(e, q)
    ensures Has(Put(e, k, v), q) <==> q == k || Has(e, q)
  {
    if e != [] {
      assert e == [e[0]] + e[1..];
      assert Has(e, k) <== Has(e[1..], k);
      PutGet(e[1..], k, v, q);
    }
    GetHas(e, q);
    GetHas(Put(e, k, v), q);
  }

  lemma {:induction false} PutFresh(e: Entries, k: string, v: Value)
    requires !Has(e, k)
    ensures Put(e, k, v) == e + [(k, v)]
  {
    if e != [] {
      assert e[0].0 != k && !Has(e[1..], k);
      PutFresh(e[1..], k, v);
    }
  }

  lemma GetHas(e: Entries, q: string)
    ensures Get(e, q).Some? <==> Has(e, q)
  {
  }

  lemma {:induction false} PutDistinct(e: Entries, k: string, v: Value)
    requires Distinct(e)
    ensures Distinct(Put(e, k, v))
  {
    if e != [] && e[0].0 != k {
      PutDistinct(e[1..], k, v);
      PutGet(e[1..], k, v, e[0].0);
      assert !Has(e[1..], e[0].0);
    }
  }

  lemma {:induction false} DropGet(e: Entries, k: string, q: string)
    requires Distinct(e)
    ensures Distinct(Drop(e, k))
    ensures Get(Drop(e, k), q) == if q == k then None else Get(e, q)
    ensures Has(Drop(e, k), q) <==> q != k && Has(e, q)
  {
    if e != [] {
      DropGet(e[1..], k, q);
      DropGet(e[1..], k, e[0].0);
      assert !Has(e[1..], e[0].0);
    }
    GetHas(e, q);
    GetHas(Drop(e, k), q);
  }

  // ---------- Mangling ----------

  const PREFIX := "_w_"

  predicate IsMangled(k: string) {
    PREFIX <= k
  }

  function Bare(k: string): string {
    if IsMangled(k) then k[3..] else k
  }

  /** The placeholder that a key of a WHERE dictionary gets, mangled before or not. */
  function Mangle(k: string): (m: string)
    ensures IsMangled(m) && (IsMangled(k) ==> m == k) && Bare(m) == Bare(k)
  {
    PREFIX + Bare(k)
  }

  function AddMangled(e: Entries, items: Entries): Entries {
    if items == [] then e
    else
      var r := AddMangled(e, items[..|items| - 1]);
      var (k, v) := items[|items| - 1];
      if IsMangled(k) then r else Put(r, Mangle(k), v)
  }

  function DropBare(e: Entries, items: Entries): Entries {
    if items == [] then e
    else
      var r := DropBare(e, items[..|items| - 1]);
      if IsMangled(items[|items| - 1].0) then r else Drop(r, items[|items| - 1].0)
  }

  function Mangled(w: Entries): Entries {
    DropBare(AddMangled(w, w), w)
  }

  /** Which entry of a WHERE dictionary decides a mangled key: the bare one if there is one. */
  function Decides(w: Entries, k: string): Option<Value> {
    if !IsMangled(k) then None
    else if !IsMangled(k[3..]) && Has(w, k[3..]) then Get(w, k[3..])
    else Get(w, k)
  }

  lemma {:induction false} GetAppend(e: Entries, k: string, v: Value, q: string)
    ensures Get(e + [(k, v)], q) == if Has(e, q) then Get(e, q) else if q == k then Some(v) else None
    ensures Has(e + [(k, v)], q) <==> Has(e, q) || q == k
  {
    if e == [] {
      assert (e + [(k, v)])[0] == (k, v);
      assert (e + [(k, v)])[1..] == [];
    } else {
      assert (e + [(k, v)])[1..] == e[1..] + [(k, v)];
      assert Has(e, q) <==> e[0].0 == q || Has(e[1..], q);
      GetAppend(e[1..], k, v, q);
    }
    GetHas(e, q);
    GetHas(e + [(k, v)], q);
  }

  lemma {:induction false} AddMangledGet(w: Entries, items: Entries, q: string)
    requires Distinct(w) && Distinct(items)
    ensures Distinct(AddMangled(w, items))
    ensures Get(AddMangled(w, items), q)
            == if IsMangled(q) && !IsMangled(q[3..]) && Has(items, q[3..]) then Get(items, q[3..]) else Get(w, q)
  {
    if items != [] {
      var front := items[..|items| - 1];
      var (k, v) := items[|items| - 1];
      assert items == front + [(k, v)];
      AddMangledGet(w, front, q);
      var r := AddMangled(w, front);
      if IsMangled(q) {
        GetAppend(front, k, v, q[3..]);
        assert q == PREFIX + q[3..];
      }
      if !IsMangled(k) {
        PutDistinct(r, Mangle(k), v);
        PutGet(r, Mangle(k), v, q);
        assert Mangle(k)[3..] == k;
        assert !Has(front, k);
      }
    }
  }

  lemma {:induction false} DropBareGet(e: Entries, items: Entries, q: string)
    requires Distinct(e)
    ensures Distinct(DropBare(e, items))
    ensures Get(DropBare(e, items), q) == if !IsMangled(q) && Has(items, q) then None else Get(e, q)
  {
    if items != [] {
      var front := items[..|items| - 1];
      var (k, v) := items[|items| - 1];
      assert items == front + [(k, v)];
      DropBareGet(e, front, q);
      GetAppend(front, k, v, q);
      if !IsMangled(k) {
        DropGet(DropBare(e, front), k, q);
      }
    }
  }

  /** Mangling leaves mangled keys only, each with the value of its bare key if that is there too. */
  lemma MangledGet(w: Entries, q: string)
    requires Distinct(w)
    ensures Distinct(Mangled(w))
    ensures Get(Mangled(w), q) == Decides(w, q)
  {
    AddMangledGet(w, w, q);
    DropBareGet(AddMangled(w, w), w, q);
    if !IsMangled(q) {
      GetHas(w, q);
    }
  }

  lemma {:induction false} MergeGet(e: Entries, more: Entries, q: string)
    requires Distinct(e) && Distinct(more)
    ensures Distinct(Merge(e, more))
    ensures Get(Merge(e, more), q) == if Has(more, q) then Get(more, q) else Get(e, q)
  {
    if more != [] {
      var front := more[..|more| - 1];
      var (k, v) := more[|more| - 1];
      assert more == front + [(k, v)];
      MergeGet(e, front, q);
      GetAppend(front, k, v, q);
      PutDistinct(Merge(e, front), k, v);
      PutGet(Merge(e, front), k, v, q);
      assert !Has(front, k);
    }
  }

  // ---------- Text ----------

  /** The parts one after another, the first after a blank and the others after sep. */
  function Joined(parts: seq<string>, sep: string): string {
    if parts == [] then ""
    else Joined(parts[..|parts| - 1], sep) + (if |parts| == 1 then " " else sep) + parts[|parts| - 1]
  }

  function Holder(k: string): string {
    "%(" + k + ")s"
  }

  function Assignment(k: string): string {
    k + " = " + Holder(k)
  }

  function Condition(k: string, oper: string): string {
    Bare(k) + " " + oper + " " + Holder(Mangle(k))
  }

  function Holders(keys: seq<string>): seq<string> {
    seq(|keys|, i requires 0 <= i < |keys| => Holder(keys[i]))
  }

  function Assignments(keys: seq<string>): seq<string> {
    seq(|keys|, i requires 0 <= i < |keys| => Assignment(keys[i]))
  }

  function Conditions(keys: seq<string>, oper: string): seq<string> {
    seq(|keys|, i requires 0 <= i < |keys| => Condition(keys[i], oper))
  }

  function MangleAll(keys: seq<string>): seq<string> {
    seq(|keys|, i requires 0 <= i < |keys| => Mangle(keys[i]))
  }

  /** The SET list, column list or nothing; values are keyed by column. */
  datatype Kind = Insert | Update | Select | Delete | Unknown

  datatype Clause = Clause(join: string, oper: string, returning: Option<string>)

  function Head(kind: Kind, table: string, columns: seq<string>): string {
    match kind
    case Select => "SELECT" + Joined(columns, ", ") + " FROM " + table + " "
    case Update => "UPDATE" + (" " + table + " SET ") + Joined(Assignments(columns), ", ") + " "
    case Insert => "INSERT INTO" + (" " + table) + " (" + Joined(columns, ", ") + ") VALUES (" + Joined(Holders(columns), ", ") + ")"
    case _ => "DELETE" + " FROM " + table
  }

  function Where(keys: seq<string>, o: Clause): string {
    if keys == [] then "" else " WHERE " + " " + Joined(Conditions(keys, o.oper), " " + o.join + " ")
  }

  function Tail(o: Clause): string {
    (match o.returning case Some(r) => " RETURNING " + r case None => "") + ";"
  }

  function Statement(kind: Kind, table: string, columns: seq<string>, where: seq<string>, o: Clause): Option<string> {
    match kind
    case Unknown => None
    case Delete => if where == [] then Some("") else Some(Head(kind, table, columns) + Where(where, o) + Tail(o))
    case _ => Some(Head(kind, table, columns) + Where(where, o) + Tail(o))
  }

  // ---------- The builder ----------

  class Dict {
    var entries: Entries

    constructor (entries: Entries)
      ensures this.entries == entries
    {
      this.entries := entries;
    }
  }

  class Db {
    const table: string
    const hostname: string
    const hasLocCode: bool
    /** The statements handed to the cursor, each with the dictionary it was executed with. */
    var executed: seq<(string, Entries)>

    constructor (table: string, hostname: string, hasLocCode: bool)
      ensures this.table == table && this.hostname == hostname && this.hasLocCode == hasLocCode && executed == []
    {
      this.table, this.hostname, this.hasLocCode, executed := table, hostname, hasLocCode, [];
    }

    method JoinAll(parts: seq<string>, sep: string) returns (text: string)
      ensures text == Joined(parts, sep)
    {
      text := "";
      var join := " ";
      for i := 0 to |parts|
        invariant text == Joined(parts[..i], sep) && join == if i == 0 then " " else sep
      {
        assert parts[..i + 1][..i] == parts[..i];
        text := text + join + parts[i];
        join := sep;
      }
      assert parts[..|parts|] == parts;
    }

    /** Adds a mangled copy of each bare key and then drops the bare keys. */
    method MangleInPlace(where: Dict)
      requires Distinct(where.entries)
      modifies where
      ensures where.entries == Mangled(old(where.entries))
    {
      var items := where.entries;
      var olds := [];
      for i := 0 to |items|
        invariant where.entries == AddMangled(items, items[..i])
        invariant forall e :: DropAll(e, olds) == DropBare(e, items[..i])
      {
        assert items[..i + 1][..i] == items[..i];
        var (k, v) := items[i];
        if !IsMangled(k) {
          where.entries := Put(where.entries, Mangle(k), v);
          assert (olds + [k])[..|olds|] == olds;
          olds := olds + [k];
        }
      }
      assert items[..|items|] == items;
      ghost var added := where.entries;
      for i := 0 to |olds|
        invariant where.entries == DropAll(added, olds[..i])
      {
        assert olds[..i + 1][..i] == olds[..i];
        where.entries := Drop(where.entries, olds[i]);
      }
      assert olds[..|olds|] == olds;
    }

    /** values is None for SELECT and DELETE, whose second argument is no dictionary. */
    method GenString(kind: Kind, columns: seq<string>, values: Option<Dict>, where: Dict, o: Clause)
      returns (text: Option<string>)
      requires Distinct(where.entries)
      requires values.Some? ==> values.value != where && Distinct(values.value.entries)
      modifies where, if values.Some? then {values.value} else {}
      ensures text == Statement(kind, table, if values.Some? then Keys(old(values.value.entries)) else columns, Keys(old(where.entries)), o)
      ensures where.entries == if kind.Unknown? then old(where.entries) else Mangled(old(where.entries))
      ensures values.Some? ==>
                (values.value.entries
                 == if kind.Unknown? then old(values.value.entries) else Merge(old(values.value.entries), Mangled(old(where.entries))))
    {
      var cols := if values.Some? then Keys(values.value.entries) else columns;
      var keys := Keys(where.entries);
      var command := "";
      match kind {
        case Unknown => return None;
        case Select =>
          var list := JoinAll(cols, ", ");
          command := "SELECT" + list + " FROM " + table + " ";
        case Update =>
          var list := JoinAll(Assignments(cols), ", ");
          command := "UPDATE" + (" " + table + " SET ") + list + " ";
        case Insert =>
          var fields := JoinAll(cols, ", ");
          var list := JoinAll(Holders(cols), ", ");
          command := "INSERT INTO" + (" " + table) + " (" + fields + ") VALUES (" + list + ")";
        case Delete =>
          if |where.entries| == 0 {
            return Some("");
          }
          command := "DELETE" + " FROM " + table;
      }
      assert command == Head(kind, table, cols);
      assert command + "" == command;
      if where.entries != [] {
        var list := JoinAll(Conditions(keys, o.oper), " " + o.join + " ");
        command := command + (" WHERE " + " " + list);
        MangleInPlace(where);
        if values.Some? {
          values.value.entries := Merge(values.value.entries, where.entries);
        }
      }
      assert command == Head(kind, table, cols) + Where(keys, o);
      return Some(command + Tail(o));
    }

    /** Every statement was executed with a dictionary of exactly its placeholders. */
    ghost predicate Valid()
      reads this
    {
      Plain(table) && forall x :: x in executed ==> Bound(x.0, x.1)
    }

    method Execute(text: string, e: Entries)
      modifies this
      ensures executed == old(executed) + [(text, e)]
    {
      executed := executed + [(text, e)];
    }

    method SelectRows(columns: seq<string>, where: Dict, o: Clause)
      requires Distinct(where.entries)
      modifies this, where
      ensures where.entries == Mangled(old(where.entries))
      ensures executed == old(executed) + [(Statement(Select, table, columns, Keys(old(where.entries)), o).value, where.entries)]
      ensures old(Valid()) && NamesOk([], old(where.entries), o) && (forall c :: c in columns ==> Plain(c)) ==> Valid()
    {
      ghost var w := where.entries;
      var text := GenString(Select, columns, None, where, o);
      Execute(text.value, where.entries);
      if Plain(table) && NamesOk([], w, o) && forall c :: c in columns ==> Plain(c) {
        WhereBound(Select, table, columns, w, o);
      }
    }

    /**
     * Only the debug log may be deleted from. An empty condition executes an empty command, so that
     * the table is never emptied.
     */
    method DeleteRows(where: Dict, o: Clause) returns (ok: bool)
      requires Distinct(where.entries)
      modifies this, where
      ensures ok == (table == "baypt_debug_log")
      ensures where.entries == if ok then Mangled(old(where.entries)) else old(where.entries)
      ensures executed
              == old(executed)
                 + if ok then [(Statement(Delete, table, [], Keys(old(where.entries)), o).value, where.entries)] else []
      ensures old(Valid()) && NamesOk([], old(where.entries), o) ==> Valid()
    {
      if table != DEBUG_LOG {
        return false;
      }
      ghost var w := where.entries;
      var text := GenString(Delete, [], None, where, o);
      Execute(text.value, where.entries);
      if Plain(table) && NamesOk([], w, o) {
        WhereBound(Delete, table, [], w, o);
      }
      return true;
    }

    /** The location of the log entry, or else this host, goes to the end of the dictionary. */
    method Locate(log: Dict)
      modifies log
      ensures log.entries == Located(old(log.entries), true, hostname)
    {
      var code := match Get(log.entries, LOC_CODE) case Some(v) => v case None => Text(hostname);
      log.entries := Drop(log.entries, LOC_CODE);
      log.entries := Put(log.entries, LOC_CODE, code);
    }

    method InsertRow(log: Dict, o: Clause)
      requires Distinct(log.entries)
      modifies this, log
      ensures log.entries == Located(old(log.entries), hasLocCode, hostname)
      ensures executed == old(executed) + [(Statement(Insert, table, Keys(log.entries), [], o).value, log.entries)]
      ensures old(Valid()) && NamesOk(log.entries, [], o) ==> Valid()
    {
      LocatedDistinct(log.entries, hasLocCode, hostname);
      if hasLocCode {
        Locate(log);
      }
      var empty := new Dict([]);
      ExecuteSet(Insert, log, empty, o);
    }

    /**
     * clash is the integrity error of the first execution. The retry builds the statement again, from
     * the dictionary that now holds the mangled keys too, and with the default operator and joint.
     */
    method UpdateRows(values: Dict, where: Dict, o: Clause, clash: bool)
      requires values != where && Distinct(where.entries) && Distinct(values.entries)
      modifies this, where, values
      ensures where.entries == Mangled(old(where.entries))
      ensures var e, w := old(values.entries), old(where.entries);
              var first := (Statement(Update, table, Keys(e), Keys(w), o).value, Merge(e, Mangled(w)));
              if clash && CanBump(first.1) then
                && values.entries == Bumped(first.1)
                && executed == old(executed) + [first, (Statement(Update, table, Keys(values.entries), Keys(where.entries), Clause("AND", "=", o.returning)).value, values.entries)]
              else values.entries == first.1 && executed == old(executed) + [first]
      ensures old(Valid()) && NamesOk(old(values.entries), old(where.entries), o) ==> Valid()
    {
      ghost var e, w := values.entries, where.entries;
      MangledGet(w, "");
      MergeGet(e, Mangled(w), "");
      ExecuteSet(Update, values, where, o);
      if clash && CanBump(values.entries) {
        RetryIsMerged(e, w);
        if NamesOk(e, w, o) {
          RetryOk(e, w, o);
        }
        values.entries := Put(values.entries, TIME, Later(values.entries));
        ExecuteSet(Update, values, where, o.(join := "AND", oper := "="));
      }
    }

    method ExecuteSet(kind: Kind, values: Dict, where: Dict, o: Clause)
      requires kind.Insert? || kind.Update?
      requires values != where && Distinct(where.entries) && Distinct(values.entries)
      modifies this, where, values
      ensures where.entries == Mangled(old(where.entries))
      ensures values.entries == Merge(old(values.entries), Mangled(old(where.entries)))
      ensures executed == old(executed) + [
                (Statement(kind, table, Keys(old(values.entries)), Keys(old(where.entries)), o).value, values.entries)]
      ensures old(Valid()) && NamesOk(old(values.entries), old(where.entries), o) ==> Valid()
    {
      ghost var e, w := values.entries, where.entries;
      var text := GenString(kind, [], Some(values), where, o);
      Execute(text.value, values.entries);
      if Plain(table) && NamesOk(e, w, o) {
        SetBound(kind, table, e, w, o);
      }
    }
  }

  const DEBUG_LOG := "baypt_debug_log"
  const LOC_CODE := "loc_code"
  const TIME := "time"

  /** The row that is inserted: it always names its location if the table has that column. */
  function Located(e: Entries, hasLocCode: bool, hostname: string): Entries {
    if !hasLocCode then e
    else Put(Drop(e, LOC_CODE), LOC_CODE, match Get(e, LOC_CODE) case Some(v) => v case None => Text(hostname))
  }

  predicate CanBump(e: Entries) {
    match Get(e, TIME)
    case Some(Time(_, micro)) => micro + 100 < 1000000
    case _ => false
  }

  function Later(e: Entries): Value
    requires CanBump(e)
  {
    Time(Get(e, TIME).value.second, Get(e, TIME).value.micro + 100)
  }

  function Bumped(e: Entries): Entries
    requires CanBump(e)
  {
    Put(e, TIME, Later(e))
  }

  function DropAll(e: Entries, keys: seq<string>): Entries {
    if keys == [] then e else Drop(DropAll(e, keys[..|keys| - 1]), keys[|keys| - 1])
  }

  // ---------- Reading the placeholders back ----------

  predicate Plain(s: string) {
    '%' !in s
  }

  predicate KeyOk(k: string) {
    '%' !in k && ')' !in k
  }

  predicate KeysOk(keys: seq<string>) {
    forall i :: 0 <= i < |keys| ==> KeyOk(keys[i])
  }

  predicate ClauseOk(o: Clause) {
    Plain(o.join) && Plain(o.oper) && (o.returning.Some? ==> Plain(o.returning.value))
  }

  /** No name has a character that the placeholder syntax uses. */
  predicate NamesOk(e: Entries, w: Entries, o: Clause) {
    KeysOk(Keys(e)) && KeysOk(Keys(w)) && ClauseOk(o)
  }

  function Until(s: string): (n: nat)
    ensures n <= |s|
  {
    if s == "" || s[0] == ')' then 0 else 1 + Until(s[1..])
  }

  /** The named placeholders of a statement in order, as the database driver finds them. */
  function Scan(s: string): seq<string>
    decreases |s|
  {
    if |s| < 2 then []
    else if s[0] == '%' && s[1] == '(' then
      var n := Until(s[2..]);
      [s[2..2 + n]] + Scan(s[2 + n..])
    else Scan(s[1..])
  }

  lemma {:induction false} ScanPlain(a: string, b: string)
    requires Plain(a)
    ensures Scan(a + b) == Scan(b)
  {
    if a == "" {
      assert a + b == b;
    } else {
      assert (a + b)[1..] == a[1..] + b;
      assert a[0] != '%';
      ScanPlain(a[1..], b);
    }
  }

  lemma {:induction false} UntilKey(k: string, b: string)
    requires ')' !in k
    ensures Until(k + ")" + b) == |k|
  {
    if k != "" {
      assert k[0] != ')';
      assert (k + ")" + b)[1..] == k[1..] + ")" + b;
      UntilKey(k[1..], b);
    }
  }

  lemma ScanHolder(k: string, b: string)
    requires KeyOk(k)
    ensures Scan(Holder(k) + b) == [k] + Scan(b)
  {
    var s := Holder(k) + b;
    assert s[2..] == k + ")" + ("s" + b);
    UntilKey(k, "s" + b);
    assert s[2..2 + |k|] == k;
    assert s[2 + |k|..] == ")s" + b;
    ScanPlain(")s", b);
  }

  /** A part whose only placeholder is the given key, at its end. */
  predicate PartOf(p: string, k: string) {
    KeyOk(k) && |p| >= |Holder(k)| && p[|p| - |Holder(k)|..] == Holder(k) && Plain(p[..|p| - |Holder(k)|])
  }

  lemma ScanPart(p: string, k: string, b: string)
    requires PartOf(p, k)
    ensures Scan(p + b) == [k] + Scan(b)
  {
    var a := p[..|p| - |Holder(k)|];
    assert p + b == a + (Holder(k) + b);
    ScanPlain(a, Holder(k) + b);
    ScanHolder(k, b);
  }

  predicate PartsOf(parts: seq<string>, keys: seq<string>) {
    |parts| == |keys| && forall i :: 0 <= i < |parts| ==> PartOf(parts[i], keys[i])
  }

  lemma PartsFront(parts: seq<string>, keys: seq<string>)
    requires PartsOf(parts, keys) && parts != []
    ensures var n := |parts| - 1;
            PartsOf(parts[..n], keys[..n]) && PartOf(parts[n], keys[n])
  {
  }

  lemma KeysJoin(keys: seq<string>, tail: seq<string>)
    requires keys != []
    ensures keys[..|keys| - 1] + ([keys[|keys| - 1]] + tail) == keys + tail
  {
  }

  lemma {:induction false} ScanJoined(parts: seq<string>, keys: seq<string>, sep: string, b: string)
    requires PartsOf(parts, keys) && Plain(sep)
    ensures Scan(Joined(parts, sep) + b) == keys + Scan(b)
  {
    if parts == [] {
      assert Joined(parts, sep) + b == b;
    } else {
      var n := |parts| - 1;
      var rest := (if n == 0 then " " else sep) + (parts[n] + b);
      PartsFront(parts, keys);
      ScanJoined(parts[..n], keys[..n], sep, rest);
      ScanLast(parts, keys[n], sep, b);
      KeysJoin(keys, Scan(b));
    }
  }

  lemma ScanLast(parts: seq<string>, key: string, sep: string, b: string)
    requires parts != [] && Plain(sep) && PartOf(parts[|parts| - 1], key)
    ensures var n := |parts| - 1;
            var rest := (if n == 0 then " " else sep) + (parts[n] + b);
            Joined(parts, sep) + b == Joined(parts[..n], sep) + rest && Scan(rest) == [key] + Scan(b)
  {
    var n := |parts| - 1;
    var gap := if n == 0 then " " else sep;
    var front := Joined(parts[..n], sep);
    assert Joined(parts, sep) == front + gap + parts[n];
    assert front + gap + parts[n] + b == front + (gap + (parts[n] + b));
    ScanPlain(gap, parts[n] + b);
    ScanPart(parts[n], key, b);
  }

  lemma {:induction false} PlainJoined(parts: seq<string>, sep: string)
    requires Plain(sep) && forall i :: 0 <= i < |parts| ==> Plain(parts[i])
    ensures Plain(Joined(parts, sep))
  {
    if parts != [] {
      PlainJoined(parts[..|parts| - 1], sep);
    }
  }

  lemma AssignmentsOk(keys: seq<string>, i: nat)
    requires KeysOk(keys) && i < |keys|
    ensures PartOf(Assignments(keys)[i], keys[i])
  {
    var k := keys[i];
    var p := Assignment(k);
    assert p == (k + " = ") + Holder(k);
    assert p[..|p| - |Holder(k)|] == k + " = ";
  }

  lemma ConditionsOk(keys: seq<string>, oper: string, i: nat)
    requires KeysOk(keys) && Plain(oper) && i < |keys|
    ensures PartOf(Conditions(keys, oper)[i], MangleAll(keys)[i])
  {
    var k := keys[i];
    var p := Condition(k, oper);
    var a := Bare(k) + " " + oper + " ";
    assert KeyOk(Bare(k)) && KeyOk(Mangle(k));
    assert p == a + Holder(Mangle(k));
    assert p[..|p| - |Holder(Mangle(k))|] == a;
  }

  lemma ScanUpdateHead(table: string, columns: seq<string>, b: string)
    requires Plain(table) && KeysOk(columns)
    ensures Scan(Head(Update, table, columns) + b) == columns + Scan(b)
  {
    var a := "UPDATE" + (" " + table + " SET ");
    var list := Joined(Assignments(columns), ", ");
    forall i | 0 <= i < |columns|
      ensures PartOf(Assignments(columns)[i], columns[i])
    {
      AssignmentsOk(columns, i);
    }
    assert Head(Update, table, columns) + b == a + (list + (" " + b));
    ScanPlain(a, list + (" " + b));
    ScanJoined(Assignments(columns), columns, ", ", " " + b);
    ScanPlain(" ", b);
  }

  lemma ScanInsertHead(table: string, columns: seq<string>, b: string)
    requires Plain(table) && KeysOk(columns)
    ensures Scan(Head(Insert, table, columns) + b) == columns + Scan(b)
  {
    PlainJoined(columns, ", ");
    var a := "INSERT INTO" + (" " + table) + " (" + Joined(columns, ", ") + ") VALUES (";
    var list := Joined(Holders(columns), ", ");
    assert Head(Insert, table, columns) + b == a + (list + (")" + b));
    ScanPlain(a, list + (")" + b));
    ScanJoined(Holders(columns), columns, ", ", ")" + b);
    ScanPlain(")", b);
  }

  lemma ScanHead(kind: Kind, table: string, columns: seq<string>, b: string)
    requires !kind.Unknown? && Plain(table)
    requires if kind.Update? || kind.Insert? then KeysOk(columns) else forall c :: c in columns ==> Plain(c)
    ensures Scan(Head(kind, table, columns) + b) == (if kind.Update? || kind.Insert? then columns else []) + Scan(b)
  {
    match kind
    case Select =>
      PlainJoined(columns, ", ");
      ScanPlain(Head(kind, table, columns), b);
    case Delete => ScanPlain(Head(kind, table, columns), b);
    case Update => ScanUpdateHead(table, columns, b);
    case Insert => ScanInsertHead(table, columns, b);
  }

  lemma ScanWhere(keys: seq<string>, o: Clause, b: string)
    requires KeysOk(keys) && ClauseOk(o)
    ensures Scan(Where(keys, o) + b) == MangleAll(keys) + Scan(b)
  {
    if keys == [] {
      assert Where(keys, o) + b == b;
    } else {
      var sep := " " + o.join + " ";
      var list := Joined(Conditions(keys, o.oper), sep);
      forall i | 0 <= i < |keys|
        ensures PartOf(Conditions(keys, o.oper)[i], MangleAll(keys)[i])
      {
        ConditionsOk(keys, o.oper, i);
      }
      assert Where(keys, o) + b == (" WHERE " + " ") + (list + b);
      ScanPlain(" WHERE " + " ", list + b);
      ScanJoined(Conditions(keys, o.oper), MangleAll(keys), sep, b);
    }
  }

  /**
   * The placeholders of a statement, read back from its text: the set columns of INSERT and UPDATE in
   * order, then one mangled key per condition.
   */
  lemma PlaceholdersOf(kind: Kind, table: string, columns: seq<string>, where: seq<string>, o: Clause)
    requires !kind.Unknown? && Plain(table) && KeysOk(where) && ClauseOk(o)
    requires if kind.Update? || kind.Insert? then KeysOk(columns) else forall c :: c in columns ==> Plain(c)
    ensures Scan(Statement(kind, table, columns, where, o).value)
            == (if kind.Update? || kind.Insert? then columns else []) + MangleAll(where)
  {
    if !(kind == Delete && where == []) {
      var h, w, t := Head(kind, table, columns), Where(where, o), Tail(o);
      assert h + w + t == h + (w + t);
      ScanHead(kind, table, columns, w + t);
      ScanWhere(where, o, t);
      ScanPlain(t, "");
      assert t + "" == t;
    }
  }

  // ---------- Placeholders and dictionaries ----------

  ghost predicate Bound(text: string, e: Entries) {
    forall q :: q in Scan(text) <==> Has(e, q)
  }

  lemma InKeys(e: Entries, q: string)
    ensures q in Keys(e) <==> Has(e, q)
  {
    var ks := Keys(e);
    if q in ks {
      var i :| 0 <= i < |ks| && ks[i] == q;
      assert e[i].0 == q;
    }
    if i :| 0 <= i < |e| && e[i].0 == q {
      assert ks[i] == q;
    }
  }

  lemma ConditionDecides(w: Entries, i: nat)
    requires Distinct(w) && i < |w|
    ensures Decides(w, Mangle(w[i].0)).Some?
  {
    var q := Mangle(w[i].0);
    assert w[i].0 == q || q[3..] == w[i].0;
    assert Has(w, w[i].0);
  }

  lemma DecidedByCondition(w: Entries, q: string)
    requires Decides(w, q).Some?
    ensures q in MangleAll(Keys(w))
  {
    var k := if !IsMangled(q[3..]) && Has(w, q[3..]) then q[3..] else q;
    GetHas(w, k);
    var i :| 0 <= i < |w| && w[i].0 == k;
    assert q == PREFIX + q[3..];
    assert MangleAll(Keys(w))[i] == q;
  }

  /** The mangled dictionary has the key of each condition and no other. */
  lemma InMangled(w: Entries, q: string)
    requires Distinct(w)
    ensures q in MangleAll(Keys(w)) <==> Has(Mangled(w), q)
  {
    MangledGet(w, q);
    GetHas(Mangled(w), q);
    var ms := MangleAll(Keys(w));
    if q in ms {
      var i :| 0 <= i < |ms| && ms[i] == q;
      ConditionDecides(w, i);
    }
    if Decides(w, q).Some? {
      DecidedByCondition(w, q);
    }
  }

  /** SELECT and DELETE run with the mangled WHERE dictionary. */
  lemma WhereBound(kind: Kind, table: string, columns: seq<string>, w: Entries, o: Clause)
    requires (kind.Select? || kind.Delete?) && Plain(table) && Distinct(w) && KeysOk(Keys(w)) && ClauseOk(o)
    requires forall c :: c in columns ==> Plain(c)
    ensures Bound(Statement(kind, table, columns, Keys(w), o).value, Mangled(w))
  {
    PlaceholdersOf(kind, table, columns, Keys(w), o);
    forall q
      ensures q in Scan(Statement(kind, table, columns, Keys(w), o).value) <==> Has(Mangled(w), q)
    {
      InMangled(w, q);
    }
  }

  /** INSERT and UPDATE run with the set values and the mangled WHERE dictionary together. */
  lemma SetBound(kind: Kind, table: string, e: Entries, w: Entries, o: Clause)
    requires (kind.Insert? || kind.Update?) && Plain(table) && Distinct(w) && Distinct(e) && KeysOk(Keys(w)) && KeysOk(Keys(e))
    requires ClauseOk(o)
    ensures Bound(Statement(kind, table, Keys(e), Keys(w), o).value, Merge(e, Mangled(w)))
  {
    var text := Statement(kind, table, Keys(e), Keys(w), o).value;
    var m := Merge(e, Mangled(w));
    PlaceholdersOf(kind, table, Keys(e), Keys(w), o);
    forall q
      ensures q in Scan(text) <==> Has(m, q)
    {
      InMangled(w, q);
      InKeys(e, q);
      MangledGet(w, q);
      MergeGet(e, Mangled(w), q);
      GetHas(m, q);
      GetHas(e, q);
      GetHas(Mangled(w), q);
    }
  }

  // ---------- The dictionaries stay well-formed ----------

  lemma OkKeys(e: Entries)
    ensures KeysOk(Keys(e)) <==> forall q :: Has(e, q) ==> KeyOk(q)
  {
    if KeysOk(Keys(e)) {
      forall q | Has(e, q)
        ensures KeyOk(q)
      {
        InKeys(e, q);
      }
    }
    if forall q :: Has(e, q) ==> KeyOk(q) {
      forall i | 0 <= i < |e|
        ensures KeyOk(Keys(e)[i])
      {
        assert Has(e, e[i].0);
      }
    }
  }

  lemma PutOk(e: Entries, k: string, v: Value)
    requires Distinct(e) && KeysOk(Keys(e)) && KeyOk(k)
    ensures Distinct(Put(e, k, v)) && KeysOk(Keys(Put(e, k, v)))
  {
    PutDistinct(e, k, v);
    OkKeys(e);
    OkKeys(Put(e, k, v));
    forall q | Has(Put(e, k, v), q)
      ensures KeyOk(q)
    {
      PutGet(e, k, v, q);
    }
  }

  lemma LocatedDistinct(e: Entries, hasLocCode: bool, hostname: string)
    requires Distinct(e)
    ensures Distinct(Located(e, hasLocCode, hostname))
  {
    DropGet(e, LOC_CODE, LOC_CODE);
    PutDistinct(Drop(e, LOC_CODE), LOC_CODE, match Get(e, LOC_CODE) case Some(v) => v case None => Text(hostname));
  }

  lemma MergedOk(e: Entries, w: Entries)
    requires Distinct(e) && Distinct(w) && KeysOk(Keys(e)) && KeysOk(Keys(w))
    ensures Distinct(Mangled(w)) && KeysOk(Keys(Mangled(w)))
    ensures Distinct(Merge(e, Mangled(w))) && KeysOk(Keys(Merge(e, Mangled(w))))
  {
    MangledGet(w, "");
    MergeGet(e, Mangled(w), "");
    OkKeys(e);
    OkKeys(w);
    OkKeys(Mangled(w));
    OkKeys(Merge(e, Mangled(w)));
    forall q | Has(Mangled(w), q)
      ensures KeyOk(q)
    {
      MangledGet(w, q);
      assert KeyOk(q[3..]) ==> KeyOk(PREFIX + q[3..]);
      assert q == PREFIX + q[3..];
    }
    forall q | Has(Merge(e, Mangled(w)), q)
      ensures KeyOk(q)
    {
      MergeGet(e, Mangled(w), q);
    }
  }

  /** All keys are mangled. */
  predicate AllMangled(w: Entries) {
    forall i :: 0 <= i < |w| ==> IsMangled(w[i].0)
  }

  lemma {:induction false} MangledStays(w: Entries, items: Entries)
    requires AllMangled(items)
    ensures AddMangled(w, items) == w && DropBare(w, items) == w
  {
    if items != [] {
      MangledStays(w, items[..|items| - 1]);
    }
  }

  lemma MangledIsMangled(w: Entries)
    requires Distinct(w)
    ensures AllMangled(Mangled(w))
  {
    var m := Mangled(w);
    forall i | 0 <= i < |m|
      ensures IsMangled(m[i].0)
    {
      MangledGet(w, m[i].0);
      GetHas(m, m[i].0);
    }
  }

  /** Mangling a WHERE dictionary any number of times is the same as mangling it once. */
  lemma {:induction false} MangledAgain(w: Entries, times: nat)
    requires Distinct(w)
    ensures MangledTimes(Mangled(w), times) == Mangled(w)
  {
    MangledIsMangled(w);
    MangledStays(Mangled(w), Mangled(w));
    if times > 0 {
      MangledAgain(w, times - 1);
    }
  }

  function MangledTimes(w: Entries, times: nat): Entries {
    if times == 0 then w else Mangled(MangledTimes(w, times - 1))
  }

  lemma {:induction false} PutSame(e: Entries, k: string, v: Value)
    requires Get(e, k) == Some(v)
    ensures Put(e, k, v) == e
  {
    if e[0].0 != k {
      PutSame(e[1..], k, v);
    }
  }

  /** e has all the entries of more. */
  predicate Includes(e: Entries, more: Entries) {
    forall i :: 0 <= i < |more| ==> Get(e, more[i].0) == Some(more[i].1)
  }

  lemma {:induction false} MergeSame(e: Entries, more: Entries)
    requires Includes(e, more)
    ensures Merge(e, more) == e
  {
    if more != [] {
      MergeSame(e, more[..|more| - 1]);
      PutSame(e, more[|more| - 1].0, more[|more| - 1].1);
    }
  }

  lemma {:induction false} GetAt(e: Entries, i: nat)
    requires Distinct(e) && i < |e|
    ensures Get(e, e[i].0) == Some(e[i].1)
  {
    if i > 0 {
      GetAt(e[1..], i - 1);
    }
  }

  /** After a first execution the retry finds everything merged already; only the time differs. */
  lemma RetryIsMerged(e: Entries, w: Entries)
    requires Distinct(e) && Distinct(w) && CanBump(Merge(e, Mangled(w)))
    ensures var b := Bumped(Merge(e, Mangled(w)));
            Distinct(b) && Distinct(Mangled(w)) && Merge(b, Mangled(w)) == b
    ensures Mangled(Mangled(w)) == Mangled(w)
  {
    var m := Merge(e, Mangled(w));
    MangledGet(w, "");
    MergeGet(e, Mangled(w), "");
    PutDistinct(m, TIME, Later(m));
    MangledIsMangled(w);
    MangledStays(Mangled(w), Mangled(w));
    BumpKeeps(e, w, Later(m));
    MergeSame(Bumped(m), Mangled(w));
  }

  lemma RetryOk(e: Entries, w: Entries, o: Clause)
    requires Distinct(e) && Distinct(w) && NamesOk(e, w, o) && CanBump(Merge(e, Mangled(w)))
    ensures NamesOk(Bumped(Merge(e, Mangled(w))), Mangled(w), o.(join := "AND", oper := "="))
  {
    var m := Merge(e, Mangled(w));
    MergedOk(e, w);
    PutOk(m, TIME, Later(m));
  }

  lemma BumpKeeps(e: Entries, w: Entries, v: Value)
    requires Distinct(e) && Distinct(Mangled(w)) && AllMangled(Mangled(w))
    ensures var b := Put(Merge(e, Mangled(w)), TIME, v);
            Includes(b, Mangled(w))
  {
    var m := Merge(e, Mangled(w));
    forall i | 0 <= i < |Mangled(w)|
      ensures Get(Put(m, TIME, v), Mangled(w)[i].0) == Some(Mangled(w)[i].1)
    {
      var k := Mangled(w)[i].0;
      GetAt(Mangled(w), i);
      MergeGet(e, Mangled(w), k);
      GetHas(Mangled(w), k);
      assert IsMangled(k) && TIME[0] == 't';
      PutGet(m, TIME, v, k);
    }
  }

  // ---------- What is bound to what ----------

  /**
   * A condition is bound to the caller's value, also when its column is set to another one, except
   * exactly when the dictionary has both a mangled key and its bare form, with different values.
   */
  lemma ConditionBoundExactlyWhen(e: Entries, w: Entries, i: nat)
    requires Distinct(e) && Distinct(w) && i < |w|
    ensures var (k, v) := w[i];
            Get(Merge(e, Mangled(w)), Mangle(k)) == Some(v)
            <==> !(IsMangled(k) && !IsMangled(k[3..]) && Has(w, k[3..]) && Get(w, k[3..]) != Some(v))
  {
    var (k, v) := w[i];
    GetAt(w, i);
    MangledGet(w, Mangle(k));
    MergeGet(e, Mangled(w), Mangle(k));
    GetHas(Mangled(w), Mangle(k));
    GetHas(w, k);
    assert Mangle(k) == PREFIX + Bare(k) && Mangle(k)[3..] == Bare(k);
  }

  /** A set column keeps its value except exactly when it is the mangled key of a condition on another value. */
  lemma SetBoundExactlyWhen(e: Entries, w: Entries, i: nat)
    requires Distinct(e) && Distinct(w) && i < |e|
    ensures var (k, v) := e[i];
            Get(Merge(e, Mangled(w)), k) == Some(v) <==> k !in MangleAll(Keys(w)) || Decides(w, k) == Some(v)
  {
    var (k, v) := e[i];
    GetAt(e, i);
    InMangled(w, k);
    MangledGet(w, k);
    MergeGet(e, Mangled(w), k);
  }

  // ---------- Reusing a dictionary ----------

  predicate AllBare(w: Entries) {
    forall i :: 0 <= i < |w| ==> !IsMangled(w[i].0)
  }

  /** The dictionary with each key replaced by its mangled form, in place. */
  function Renamed(w: Entries): (r: Entries)
    ensures |r| == |w| && forall i :: 0 <= i < |w| ==> r[i] == (Mangle(w[i].0), w[i].1)
  {
    seq(|w|, i requires 0 <= i < |w| => (Mangle(w[i].0), w[i].1))
  }

  lemma NotYetAdded(w: Entries, n: nat)
    requires Distinct(w) && AllBare(w) && 0 < n <= |w|
    ensures !Has(w + Renamed(w[..n - 1]), Mangle(w[n - 1].0))
  {
    var r := w + Renamed(w[..n - 1]);
    var k := w[n - 1].0;
    forall j | 0 <= j < |r|
      ensures r[j].0 != Mangle(k)
    {
      if j >= |w| {
        assert r[j].0 == PREFIX + w[j - |w|].0;
        assert r[j].0[3..] == w[j - |w|].0 && Mangle(k)[3..] == k;
      }
    }
  }

  lemma {:induction false} AddToBare(w: Entries, n: nat)
    requires Distinct(w) && AllBare(w) && n <= |w|
    ensures AddMangled(w, w[..n]) == w + Renamed(w[..n])
  {
    if n == 0 {
      assert w[..0] == [] && w + Renamed(w[..0]) == w;
    } else {
      assert w[..n][..n - 1] == w[..n - 1] && w[..n][n - 1] == w[n - 1];
      AddToBare(w, n - 1);
      AddOne(w, n);
    }
  }

  lemma AddOne(w: Entries, n: nat)
    requires Distinct(w) && AllBare(w) && 0 < n <= |w|
    ensures Put(w + Renamed(w[..n - 1]), Mangle(w[n - 1].0), w[n - 1].1) == w + Renamed(w[..n])
  {
    var a := Renamed(w[..n - 1]);
    var last := (Mangle(w[n - 1].0), w[n - 1].1);
    NotYetAdded(w, n);
    PutFresh(w + a, last.0, last.1);
    RenamedLast(w, n);
    Regroup(w, a, [last]);
  }

  lemma Regroup(a: Entries, b: Entries, c: Entries)
    ensures (a + b) + c == a + (b + c)
  {
  }

  lemma RenamedLast(w: Entries, n: nat)
    requires 0 < n <= |w|
    ensures Renamed(w[..n]) == Renamed(w[..n - 1]) + [(Mangle(w[n - 1].0), w[n - 1].1)]
  {
  }

  lemma {:induction false} DropFromBare(w: Entries, more: Entries, n: nat)
    requires AllBare(w) && n <= |w|
    ensures DropBare(w + more, w[..n]) == w[n..] + more
  {
    if n > 0 {
      assert w[..n][..n - 1] == w[..n - 1];
      DropFromBare(w, more, n - 1);
      assert w[n - 1..] + more == [w[n - 1]] + (w[n..] + more);
    }
  }

  lemma {:induction false} SameConditions(a: seq<string>, b: seq<string>, oper: string)
    requires |a| == |b| && forall i :: 0 <= i < |a| ==> Bare(a[i]) == Bare(b[i])
    ensures Conditions(a, oper) == Conditions(b, oper)
  {
  }

  /**
   * A WHERE dictionary that is used again, any number of times, makes the same conditions as at first,
   * and after its first use it does not change any more. Keys must not be mangled to begin with.
   */
  lemma ReuseKeepsConditions(w: Entries, o: Clause, times: nat)
    requires Distinct(w) && AllBare(w)
    ensures MangledTimes(Mangled(w), times) == Mangled(w) == Renamed(w)
    ensures Where(Keys(MangledTimes(Mangled(w), times)), o) == Where(Keys(w), o)
  {
    MangledAgain(w, times);
    assert w[..|w|] == w && w[|w|..] + Renamed(w) == Renamed(w);
    AddToBare(w, |w|);
    DropFromBare(w, Renamed(w), |w|);
    SameConditions(Keys(Renamed(w)), Keys(w), o.oper);
    assert |Keys(Renamed(w))| == |Keys(w)|;
  }

  // ---------- The retry of an update ----------

  lemma {:induction false} MergeAppends(e: Entries, more: Entries)
    requires Distinct(more) && forall i :: 0 <= i < |more| ==> !Has(e, more[i].0)
    ensures Merge(e, more) == e + more
  {
    if more != [] {
      var front := more[..|more| - 1];
      var (k, v) := more[|more| - 1];
      MergeAppends(e, front);
      assert !Has(e + front, k) by {
        assert forall j :: |e| <= j < |e + front| ==> (e + front)[j] == more[j - |e|];
      }
      PutFresh(e + front, k, v);
      assert e + front + [(k, v)] == e + more;
    }
  }

  lemma BareHasNoMangled(e: Entries, w: Entries)
    requires Distinct(w) && AllBare(e)
    ensures forall i :: 0 <= i < |Mangled(w)| ==> !Has(e, Mangled(w)[i].0)
  {
    MangledIsMangled(w);
  }

  /** A condition leaves its mangled key, mangled before or not. */
  lemma MangledKeys(w: Entries)
    requires Distinct(w)
    ensures forall q :: q in Keys(Mangled(w)) <==> q in MangleAll(Keys(w))
    ensures Mangled(w) == [] <==> w == []
  {
    forall q
      ensures q in Keys(Mangled(w)) <==> q in MangleAll(Keys(w))
    {
      InMangled(w, q);
      InKeys(Mangled(w), q);
    }
    if w != [] {
      assert MangleAll(Keys(w))[0] in MangleAll(Keys(w));
    }
  }

  /**
   * The retry sets the columns of the first attempt exactly when there is no condition; otherwise it
   * also assigns to a column named after the mangled key of each condition, whether the dictionary of
   * conditions has been used before or not.
   */
  lemma RetrySetsTheSameExactlyWhen(e: Entries, w: Entries)
    requires Distinct(e) && Distinct(w) && AllBare(e) && CanBump(Merge(e, Mangled(w)))
    ensures Keys(Bumped(Merge(e, Mangled(w)))) == Keys(e) + Keys(Mangled(w))
    ensures forall q :: q in Keys(Mangled(w)) <==> q in MangleAll(Keys(w))
    ensures AllBare(w) ==> Keys(Mangled(w)) == MangleAll(Keys(w))
    ensures Keys(Bumped(Merge(e, Mangled(w)))) == Keys(e) <==> w == []
  {
    MangledGet(w, "");
    var m := Merge(e, Mangled(w));
    BareHasNoMangled(e, w);
    MergeAppends(e, Mangled(w));
    PutKeepsKeys(m, TIME, Later(m));
    SameKeysList(Bumped(m), m);
    KeysAppend(e, Mangled(w));
    MangledKeys(w);
    if AllBare(w) {
      ReuseKeepsConditions(w, Clause("", "", None), 0);
      KeysRenamed(w);
    }
  }

  lemma KeysAppend(e: Entries, more: Entries)
    ensures Keys(e + more) == Keys(e) + Keys(more)
  {
  }

  lemma KeysRenamed(w: Entries)
    ensures Keys(Renamed(w)) == MangleAll(Keys(w))
  {
  }

  lemma {:induction false} PutKeepsKeys(e: Entries, k: string, v: Value)
    requires Has(e, k)
    ensures SameKeys(Put(e, k, v), e)
  {
    if e[0].0 != k {
      assert Has(e[1..], k);
      PutKeepsKeys(e[1..], k, v);
    }
  }

  predicate SameKeys(a: Entries, b: Entries) {
    |a| == |b| && forall i :: 0 <= i < |a| ==> a[i].0 == b[i].0
  }

  lemma SameKeysList(a: Entries, b: Entries)
    requires SameKeys(a, b)
    ensures Keys(a) == Keys(b)
  {
  }

  // ---------- The text and the dictionaries in plain terms ----------

  /** A key of a dictionary without repetitions has just the values that stand beside it. */
  lemma {:induction false} GetIs(e: Entries, k: string, v: Value)
    requires Distinct(e)
    ensures Get(e, k) == Some(v) <==> (k, v) in e
  {
    if e != [] {
      GetIs(e[1..], k, v);
      assert e == [e[0]] + e[1..];
    }
  }

  /** Dropping a key takes out its entry and leaves the others in their order. */
  lemma {:induction false} DropTakesOut(a: Entries, k: string, v: Value, b: Entries)
    requires forall i :: 0 <= i < |a| ==> a[i].0 != k
    ensures Drop(a + [(k, v)] + b, k) == a + b
  {
    var e := a + [(k, v)] + b;
    if a == [] {
      assert e[0] == (k, v) && e[1..] == b;
    } else {
      assert e[0] == a[0] && e[1..] == a[1..] + [(k, v)] + b;
      DropTakesOut(a[1..], k, v, b);
      assert [a[0]] + (a[1..] + b) == a + b;
    }
  }

  lemma {:induction false} DropNothing(e: Entries, k: string)
    requires forall i :: 0 <= i < |e| ==> e[i].0 != k
    ensures Drop(e, k) == e
  {
    if e != [] {
      DropNothing(e[1..], k);
    }
  }

  /** Assigning to a key changes its entry where it stands. */
  lemma {:induction false} PutReplaces(a: Entries, k: string, v: Value, b: Entries, w: Value)
    requires forall i :: 0 <= i < |a| ==> a[i].0 != k
    ensures Put(a + [(k, v)] + b, k, w) == a + [(k, w)] + b
  {
    var e := a + [(k, v)] + b;
    if a == [] {
      assert e[0] == (k, v) && e[1..] == b;
      assert [] + [(k, w)] + b == [(k, w)] + b;
    } else {
      assert e[0] == a[0] && e[1..] == a[1..] + [(k, v)] + b;
      PutReplaces(a[1..], k, v, b, w);
      assert [a[0]] + (a[1..] + [(k, w)] + b) == a + [(k, w)] + b;
    }
  }

  /** The location goes to the end: the one given, or else the name of this host. */
  lemma LocationIsLast(a: Entries, v: Value, b: Entries, hostname: string)
    requires Distinct(a + [("loc_code", v)] + b)
    ensures Located(a + [("loc_code", v)] + b, true, hostname) == a + b + [("loc_code", v)]
  {
    var e := a + [("loc_code", v)] + b;
    assert e[|a|] == ("loc_code", v);
    forall i | 0 <= i < |a| ensures a[i].0 != "loc_code" {
      assert e[i].0 != e[|a|].0;
    }
    GetAt(e, |a|);
    DropTakesOut(a, "loc_code", v, b);
    DropGet(e, "loc_code", "loc_code");
    PutFresh(a + b, "loc_code", v);
  }

  lemma LocationIsHost(e: Entries, hostname: string)
    requires forall i :: 0 <= i < |e| ==> e[i].0 != "loc_code"
    ensures Located(e, true, hostname) == e + [("loc_code", Text(hostname))]
    ensures Located(e, false, hostname) == e
  {
    GetHas(e, "loc_code");
    DropNothing(e, "loc_code");
    PutFresh(e, "loc_code", Text(hostname));
  }

  /** A clash of times is met by one 100 microseconds later in the same place, unless that would leave the second. */
  lemma TimeIsBumped(a: Entries, second: int, micro: int, b: Entries)
    requires Distinct(a + [("time", Time(second, micro))] + b)
    ensures var e := a + [("time", Time(second, micro))] + b;
            && (CanBump(e) <==> micro < 999900)
            && (CanBump(e) ==> Bumped(e) == a + [("time", Time(second, micro + 100))] + b)
  {
    var e := a + [("time", Time(second, micro))] + b;
    assert e[|a|] == ("time", Time(second, micro));
    forall i | 0 <= i < |a| ensures a[i].0 != "time" {
      assert e[i].0 != e[|a|].0;
    }
    GetAt(e, |a|);
    PutReplaces(a, "time", Time(second, micro), b, Time(second, micro + 100));
  }

  lemma NoTimeToBump(e: Entries)
    requires forall i :: 0 <= i < |e| ==> e[i].0 == "time" ==> !e[i].1.Time?
    ensures !CanBump(e)
  {
  }

  /** A key and its mangled form make the same condition: the bare column, the operator and the mangled placeholder. */
  lemma ConditionIs(k: string, oper: string)
    requires !("_w_" <= k)
    ensures Condition(k, oper) == Condition("_w_" + k, oper) == k + " " + oper + " %(_w_" + k + ")s"
    ensures Mangle(k) == Mangle("_w_" + k) == "_w_" + k
  {
    assert ("_w_" + k)[3..] == k;
    assert "%(" + ("_w_" + k) + ")s" == "%(_w_" + k + ")s";
    assert k + " " + oper + " " + "%(_w_" + k + ")s" == k + " " + oper + " %(_w_" + k + ")s";
  }

  lemma AssignmentIs(k: string)
    ensures Assignment(k) == k + " = %(" + k + ")s" && Holder(k) == "%(" + k + ")s"
  {
  }

  /** Conditions, assignments and columns are listed in order, after a blank and with the separator between them. */
  lemma JoinedIs(parts: seq<string>, last: string, sep: string)
    ensures Joined([last], sep) == " " + last
    ensures parts != [] ==> Joined(parts + [last], sep) == Joined(parts, sep) + sep + last
  {
    assert [last][..0] == [];
    assert (parts + [last])[..|parts|] == parts;
  }

  lemma ListsAre(keys: seq<string>, oper: string, i: nat)
    requires i < |keys|
    ensures |Conditions(keys, oper)| == |Assignments(keys)| == |Holders(keys)| == |keys|
    ensures Conditions(keys, oper)[i] == Condition(keys[i], oper)
    ensures Assignments(keys)[i] == Assignment(keys[i]) && Holders(keys)[i] == Holder(keys[i])
  {
  }

  /** The statement of each kind: its verb, its table and lists, the conditions if there are any, and RETURNING. */
  lemma StatementIs(table: string, columns: seq<string>, where: seq<string>, o: Clause)
    ensures var conditions := if where == [] then "" else " WHERE " + " " + Joined(Conditions(where, o.oper), " " + o.join + " ");
            var end := (match o.returning case Some(r) => " RETURNING " + r case None => "") + ";";
            && Statement(Select, table, columns, where, o) == Some("SELECT" + Joined(columns, ", ") + " FROM " + table + " " + conditions + end)
            && Statement(Update, table, columns, where, o) ==
               Some("UPDATE" + (" " + table + " SET ") + Joined(Assignments(columns), ", ") + " " + conditions + end)
            && Statement(Delete, table, columns, where, o) == (if where == [] then Some("") else Some("DELETE" + " FROM " + table + conditions + end))
            && Statement(Insert, table, columns, where, o) ==
               Some("INSERT INTO" + (" " + table) + " (" + Joined(columns, ", ") + ") VALUES (" + Joined(Holders(columns), ", ") + ")" + conditions + end)
            && Statement(Unknown, table, columns, where, o) == None
  {
  }
}
