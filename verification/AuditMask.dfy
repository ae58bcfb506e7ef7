/** Hiding staff identities in the audit log's JSON from readers without the right to see them. */
module AuditMask {
  import opened Wrappers

  // A value read from a JSON column; an object's entries are in its own order and have distinct keys.
  datatype Json =
    | Undefined | Null | Bool(truth: bool) | Number(value: int) | Text(text: string)
    | Array(items: seq<Json>) | Object(entries: seq<Entry>)

  datatype Entry = Entry(key: string, value: Json)

  function LowerAscii(c: char): char {
    if 'A' <= c <= 'Z' then c + 'a' - 'A' else c
  }

  function Lower(s: string): string {
    seq(|s|, i requires 0 <= i < |s| => LowerAscii(s[i]))
  }

  const STAFF_SUFFIX := "adminuserid"

  // Keys ending in AdminUserId, in any mix of cases.
  predicate NamesStaff(key: string) {
    |key| >= |STAFF_SUFFIX| && Lower(key[|key| - |STAFF_SUFFIX|..]) == STAFF_SUFFIX
  }

  // The last eleven characters of a staff key, letter by letter.
  lemma StaffKeysEndSo(key: string)
    ensures NamesStaff(key)
        <==> |key| >= 11 && forall i :: 0 <= i < 11 ==>
               key[|key| - 11 + i] == "adminuserid"[i] || key[|key| - 11 + i] == "ADMINUSERID"[i]
  {
    if |key| >= 11 {
      var tail := key[|key| - 11..];
      assert forall i :: 0 <= i < 11 ==> tail[i] == key[|key| - 11 + i];
      forall i | 0 <= i < 11
        ensures Lower(tail)[i] == STAFF_SUFFIX[i] <==> tail[i] == "adminuserid"[i] || tail[i] == "ADMINUSERID"[i]
      {
        OneLetter(tail[i], "adminuserid"[i], "ADMINUSERID"[i]);
      }
    }
  }

  lemma OneLetter(c: char, small: char, capital: char)
    requires 'a' <= small <= 'z' && capital == small - 'a' + 'A'
    ensures LowerAscii(c) == small <==> c == small || c == capital
  {
  }

  // Assigning to this key of an object sets its prototype and adds no entry.
  const PROTOTYPE := "__proto__"

  /* The masked value. */

  function Mask(value: Json): Json
    decreases value
  {
    match value
    case Array(items) => Array(seq(|items|, i requires 0 <= i < |items| => Mask(items[i])))
    case Object(entries) => Object(MaskEntries(value, |entries|))
    case _ => value
  }

  function MaskEntries(value: Json, n: nat): seq<Entry>
    requires value.Object? && n <= |value.entries|
    decreases value, n
  {
    if n == 0 then []
    else
      var Entry(key, item) := value.entries[n - 1];
      var before := MaskEntries(value, n - 1);
      if key == PROTOTYPE then before
      else before + [Entry(key, if NamesStaff(key) then Null else Mask(item))]
  }

  method MaskStaffAdminIds(value: Json, canViewRealStaffIdentity: bool) returns (masked: Json)
    ensures masked == if canViewRealStaffIdentity then value else Mask(value)
    decreases value
  {
    if canViewRealStaffIdentity || value.Null? || value.Undefined? {
      return value;
    }
    if value.Array? {
      var items := [];
      for i := 0 to |value.items|
        invariant items == seq(i, k requires 0 <= k < i => Mask(value.items[k]))
      {
        var item := MaskStaffAdminIds(value.items[i], canViewRealStaffIdentity);
        items := items + [item];
      }
      return Array(items);
    }
    if !value.Object? {
      return value;
    }
    var output := [];
    for i := 0 to |value.entries|
      invariant output == MaskEntries(value, i)
    {
      var Entry(key, item) := value.entries[i];
      var hidden := Null;
      if !NamesStaff(key) {
        hidden := MaskStaffAdminIds(item, canViewRealStaffIdentity);
      }
      if key != PROTOTYPE {
        output := output + [Entry(key, hidden)];
      }
    }
    return Object(output);
  }

  /* Places in a value. */

  datatype Step = Index(i: nat) | Key(key: string)

  function Find(entries: seq<Entry>, key: string): Option<Json> {
    if entries == [] then None
    else
      var last := entries[|entries| - 1];
      if last.key == key then Some(last.value) else Find(entries[..|entries| - 1], key)
  }

  function Child(value: Json, step: Step): Option<Json> {
    match step
    case Index(i) => if value.Array? && i < |value.items| then Some(value.items[i]) else None
    case Key(key) => if value.Object? then Find(value.entries, key) else None
  }

  function At(value: Json, path: seq<Step>): Option<Json>
    decreases |path|
  {
    if path == [] then Some(value)
    else
      var child := Child(value, path[0]);
      if child.Some? then At(child.value, path[1..]) else None
  }

  predicate Staff(step: Step) {
    step.Key? && NamesStaff(step.key)
  }

  // Only the last step may be a staff key.
  predicate Visible(path: seq<Step>) {
    forall i :: 0 <= i < |path| - 1 ==> !Staff(path[i])
  }

  /* What masking does at every place. */

  lemma {:induction false} FindMasked(value: Json, n: nat, key: string)
    requires value.Object? && n <= |value.entries|
    ensures var found := Find(value.entries[..n], key);
            Find(MaskEntries(value, n), key)
            == if key == PROTOTYPE || found.None? then None
               else Some(if NamesStaff(key) then Null else Mask(found.value))
  {
    hide Mask, MaskEntries, NamesStaff, Find;
    if n == 0 {
      FindNothing(value, key);
    } else {
      var last, before := value.entries[n - 1], MaskEntries(value, n - 1);
      FindMasked(value, n - 1, key);
      assert value.entries[..n] == value.entries[..n - 1] + [last];
      FindLast(value.entries[..n - 1], last, key);
      MaskLast(value, n);
      FindLast(before, MaskedEntry(last), key);
    }
  }

  function MaskedEntry(entry: Entry): Entry {
    Entry(entry.key, if NamesStaff(entry.key) then Null else Mask(entry.value))
  }

  lemma MaskLast(value: Json, n: nat)
    requires value.Object? && 0 < n <= |value.entries|
    ensures var last, before := value.entries[n - 1], MaskEntries(value, n - 1);
            MaskEntries(value, n) == if last.key == PROTOTYPE then before else before + [MaskedEntry(last)]
  {
  }

  lemma {:induction false} FindNothing(value: Json, key: string)
    requires value.Object?
    ensures Find(value.entries[..0], key) == None == Find(MaskEntries(value, 0), key)
  {
  }

  lemma {:induction false} FindLast(entries: seq<Entry>, last: Entry, key: string)
    ensures Find(entries + [last], key) == if last.key == key then Some(last.value) else Find(entries, key)
  {
    assert (entries + [last])[..|entries|] == entries;
  }

  lemma {:induction false} ChildMasked(value: Json, step: Step)
    ensures var child := Child(value, step);
            Child(Mask(value), step)
            == if step == Key(PROTOTYPE) || child.None? then None
               else Some(if Staff(step) then Null else Mask(child.value))
  {
    if value.Object? && step.Key? {
      FindMasked(value, |value.entries|, step.key);
      assert value.entries[..|value.entries|] == value.entries;
    }
  }

  // Following any path: below a staff key nothing is left, at a staff key stands null, and everywhere else stands
  // what stood there, its own staff keys masked; only a key that names the prototype is lost.
  lemma {:induction false} MaskAt(value: Json, path: seq<Step>)
    ensures At(Mask(value), path)
         == if !Visible(path) || Key(PROTOTYPE) in path || At(value, path).None? then None
            else if path != [] && Staff(path[|path| - 1]) then Some(Null)
            else Some(Mask(At(value, path).value))
    decreases |path|
  {
    if path != [] {
      ChildMasked(value, path[0]);
      NothingBelowNull(path[1..]);
      VisibleTail(path);
      hide Mask, Child, Staff, Visible;
      var child := Child(value, path[0]);
      if child.Some? && path[0] != Key(PROTOTYPE) && !Staff(path[0]) {
        MaskAt(child.value, path[1..]);
      }
    }
  }

  lemma {:induction false} NothingBelowNull(path: seq<Step>)
    ensures At(Null, path) == if path == [] then Some(Null) else None
  {
  }

  lemma VisibleTail(path: seq<Step>)
    requires path != []
    ensures Visible(path) <==> (|path| > 1 ==> !Staff(path[0])) && Visible(path[1..])
    ensures Key(PROTOTYPE) in path <==> path[0] == Key(PROTOTYPE) || Key(PROTOTYPE) in path[1..]
  {
    var rest := path[1..];
    assert path == [path[0]] + rest;
    assert forall i :: 0 < i < |path| ==> path[i] == rest[i - 1];
    if Visible(path) {
      assert forall i :: 0 <= i < |rest| - 1 ==> rest[i] == path[i + 1];
    }
  }

  /* Which values lose nothing, and which are left as they are. */

  predicate Distinct(value: Json)
    decreases value
  {
    match value
    case Array(items) => forall i :: 0 <= i < |items| ==> Distinct(items[i])
    case Object(entries) =>
      && (forall i, j :: 0 <= i < j < |entries| ==> entries[i].key != entries[j].key)
      && (forall i :: 0 <= i < |entries| ==> Distinct(entries[i].value))
    case _ => true
  }

  // No object outside the hidden parts has an entry that names the prototype.
  predicate NoPrototype(value: Json)
    decreases value
  {
    match value
    case Array(items) => forall i :: 0 <= i < |items| ==> NoPrototype(items[i])
    case Object(entries) =>
      forall i :: 0 <= i < |entries| ==>
        entries[i].key != PROTOTYPE && (NamesStaff(entries[i].key) || NoPrototype(entries[i].value))
    case _ => true
  }

  // Every staff key holds null.
  predicate NoStaffIds(value: Json)
    decreases value
  {
    match value
    case Array(items) => forall i :: 0 <= i < |items| ==> NoStaffIds(items[i])
    case Object(entries) =>
      forall i :: 0 <= i < |entries| ==>
        if NamesStaff(entries[i].key) then entries[i].value == Null else NoStaffIds(entries[i].value)
    case _ => true
  }

  lemma {:induction false} MaskedHasNoStaffIds(value: Json)
    ensures NoStaffIds(Mask(value)) && NoPrototype(Mask(value))
    decreases value
  {
    match value {
      case Array(items) =>
        forall i | 0 <= i < |items| ensures NoStaffIds(Mask(items[i])) && NoPrototype(Mask(items[i])) {
          MaskedHasNoStaffIds(items[i]);
        }
      case Object(entries) =>
        MaskedEntries(value, |entries|);
      case _ =>
    }
  }

  lemma {:induction false} MaskedEntries(value: Json, n: nat)
    requires value.Object? && n <= |value.entries|
    ensures NoStaffIds(Object(MaskEntries(value, n))) && NoPrototype(Object(MaskEntries(value, n)))
    decreases value, n
  {
    if n > 0 {
      MaskedEntries(value, n - 1);
      MaskedHasNoStaffIds(value.entries[n - 1].value);
    }
  }

  // Masking leaves a value as it is exactly when there is nothing to hide and nothing to lose.
  lemma {:induction false} UnchangedExactly(value: Json)
    ensures Mask(value) == value <==> NoStaffIds(value) && NoPrototype(value)
    decreases value
  {
    if NoStaffIds(value) && NoPrototype(value) {
      Unchanged(value);
    } else {
      MaskedHasNoStaffIds(value);
    }
  }

  lemma {:induction false} Unchanged(value: Json)
    requires NoStaffIds(value) && NoPrototype(value)
    ensures Mask(value) == value
    decreases value
  {
    match value {
      case Array(items) =>
        forall i | 0 <= i < |items| ensures Mask(items[i]) == items[i] {
          Unchanged(items[i]);
        }
      case Object(entries) =>
        UnchangedEntries(value, |entries|);
        assert entries[..|entries|] == entries;
      case _ =>
    }
  }

  lemma {:induction false} UnchangedEntries(value: Json, n: nat)
    requires value.Object? && n <= |value.entries| && NoStaffIds(value) && NoPrototype(value)
    ensures MaskEntries(value, n) == value.entries[..n]
    decreases value, n
  {
    if n > 0 {
      UnchangedEntries(value, n - 1);
      if !NamesStaff(value.entries[n - 1].key) {
        Unchanged(value.entries[n - 1].value);
      }
      assert value.entries[..n] == value.entries[..n - 1] + [value.entries[n - 1]];
    }
  }

  lemma {:induction false} MaskIsIdempotent(value: Json)
    ensures Mask(Mask(value)) == Mask(value)
  {
    MaskedHasNoStaffIds(value);
    Unchanged(Mask(value));
  }

  // No place outside the hidden parts is lost.
  ghost predicate KeepsEveryPlace(value: Json) {
    forall path :: Visible(path) && At(value, path).Some? ==> At(Mask(value), path).Some?
  }

  lemma {:induction false} CleanPath(value: Json, path: seq<Step>)
    requires NoPrototype(value) && Visible(path) && At(value, path).Some?
    ensures Key(PROTOTYPE) !in path
    decreases |path|
  {
    if path != [] {
      var child := Child(value, path[0]).value;
      if path[0].Key? {
        FindIsEntry(value.entries, path[0].key);
      }
      if |path| > 1 {
        assert forall i :: 0 < i < |path| ==> path[i] == path[1..][i - 1];
        CleanPath(child, path[1..]);
      }
    }
  }

  lemma {:induction false} FindIsEntry(entries: seq<Entry>, key: string)
    ensures Find(entries, key).Some? ==> Entry(key, Find(entries, key).value) in entries
  {
    if entries != [] {
      FindIsEntry(entries[..|entries| - 1], key);
    }
  }

  lemma {:induction false} EntryIsFound(entries: seq<Entry>, i: nat)
    requires i < |entries| && forall j, k :: 0 <= j < k < |entries| ==> entries[j].key != entries[k].key
    ensures Find(entries, entries[i].key) == Some(entries[i].value)
  {
    if i < |entries| - 1 {
      EntryIsFound(entries[..|entries| - 1], i);
    }
  }

  lemma {:induction false} LostPlace(value: Json) returns (path: seq<Step>)
    requires Distinct(value) && !NoPrototype(value)
    ensures Visible(path) && At(value, path).Some? && Key(PROTOTYPE) in path
    decreases value
  {
    match value {
      case Array(items) =>
        var i :| 0 <= i < |items| && !NoPrototype(items[i]);
        var rest := LostPlace(items[i]);
        path := [Index(i)] + rest;
        assert path[1..] == rest;
      case Object(entries) =>
        var i :| 0 <= i < |entries|
                 && !(entries[i].key != PROTOTYPE && (NamesStaff(entries[i].key) || NoPrototype(entries[i].value)));
        EntryIsFound(entries, i);
        if entries[i].key == PROTOTYPE {
          path := [Key(PROTOTYPE)];
        } else {
          var rest := LostPlace(entries[i].value);
          path := [Key(entries[i].key)] + rest;
          assert path[1..] == rest;
        }
    }
  }

  // Every key, leaf and array element outside the hidden parts is kept if and only if no object there has an entry
  // named after the prototype.
  lemma {:induction false} KeepsEveryPlaceExactly(value: Json)
    requires Distinct(value)
    ensures KeepsEveryPlace(value) <==> NoPrototype(value)
  {
    if NoPrototype(value) {
      forall path | Visible(path) && At(value, path).Some? ensures At(Mask(value), path).Some? {
        CleanPath(value, path);
        MaskAt(value, path);
      }
    } else {
      var path := LostPlace(value);
      MaskAt(value, path);
    }
  }

  lemma PrototypeEntryIsLost()
    ensures Mask(Object([Entry("__proto__", Text("a")), Entry("note", Text("b"))]))
         == Object([Entry("note", Text("b"))])
  {
    var value := Object([Entry("__proto__", Text("a")), Entry("note", Text("b"))]);
    assert MaskEntries(value, 0) == [] == MaskEntries(value, 1);
    assert |"note"| < |STAFF_SUFFIX|;
    assert MaskEntries(value, 2) == [Entry("note", Text("b"))];
  }
}
