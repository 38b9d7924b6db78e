/**
 Foreign-key expansion of response payloads.

 The service walks a payload once to collect the ids its foreign keys name, fetches all
 of them in one query per entity type, and walks the payload again to put the records in
 place.  `BatchedEqualsNaive` shows the result to be that of looking every id up on its
 own, so the first walk never misses an id that the second one needs.
 */
module FkExpansion {
  import opened Numbers
  import opened Wrappers

  // Payloads are not serialized yet: a `Date` is the object that the driver makes of a timestamp column.
  datatype Json =
    | Null | Bool(b: bool) | Number(n: real) | Str(s: string) | Date(ms: int)
    | Arr(items: seq<Json>) | Obj(entries: seq<Entry>)
  datatype Entry = Entry(key: string, value: Json)

  // `NoEntity` stands for the undefined entity of a key that only names an inherited property.
  datatype Entity = User | Category | Product | Message | Conversation | File | NoEntity

  // `unlessOwnerType` marks the rule that stays off in a container with an `owner_type` key.
  datatype Rule = Rule(entity: Entity, outputKey: Option<string>, unlessOwnerType: bool)
  type Rules = map<string, Rule>

  function To(entity: Entity): Rule {
    Rule(entity, None, false)
  }

  const DECLARED_RULES: Rules := map[
    "admin_id" := To(User), "avatar_file_id" := To(File), "blocked_id" := To(User), "blocker_id" := To(User),
    "conversation_id" := To(Conversation), "file_id" := To(File), "last_message_id" := To(Message),
    "owner_id" := Rule(User, None, true), "parent_id" := To(Category), "peer_user_id" := To(User),
    "product_id" := To(Product), "product_image_file_id" := Rule(File, Some("product_image"), false),
    "rated_user_id" := To(User), "rater_id" := To(User), "reported_user_id" := To(User), "reporter_id" := To(User),
    "reviewed_by" := Rule(User, Some("reviewed_by"), false), "sender_id" := To(User), "target_user_id" := To(User),
    "uploader_user_id" := To(User), "user_a_id" := To(User), "user_b_id" := To(User), "user_id" := To(User)]

  /** Which entity each foreign key names, and under which name its record appears if that is not the key without `_id`. */
  lemma UserKeys()
    ensures forall key :: key in {"admin_id", "blocked_id", "blocker_id", "peer_user_id", "rated_user_id", "rater_id", "reported_user_id",
                                  "reporter_id", "sender_id", "target_user_id", "uploader_user_id", "user_a_id", "user_b_id", "user_id"} ==>
              key in DECLARED_RULES && DECLARED_RULES[key] == Rule(User, None, false)
  {
  }

  lemma OtherKeys()
    ensures forall key :: key in {"avatar_file_id", "file_id"} ==> key in DECLARED_RULES && DECLARED_RULES[key] == Rule(File, None, false)
    ensures "conversation_id" in DECLARED_RULES && DECLARED_RULES["conversation_id"] == Rule(Conversation, None, false)
    ensures "last_message_id" in DECLARED_RULES && DECLARED_RULES["last_message_id"] == Rule(Message, None, false)
    ensures "parent_id" in DECLARED_RULES && DECLARED_RULES["parent_id"] == Rule(Category, None, false)
    ensures "product_id" in DECLARED_RULES && DECLARED_RULES["product_id"] == Rule(Product, None, false)
    ensures "owner_id" in DECLARED_RULES && DECLARED_RULES["owner_id"] == Rule(User, None, true)
    ensures "reviewed_by" in DECLARED_RULES && DECLARED_RULES["reviewed_by"] == Rule(User, Some("reviewed_by"), false)
    ensures "product_image_file_id" in DECLARED_RULES && DECLARED_RULES["product_image_file_id"] == Rule(File, Some("product_image"), false)
  {
  }

  lemma NoOtherKey(key: string)
    requires key in DECLARED_RULES
    ensures key in {"admin_id", "avatar_file_id", "blocked_id", "blocker_id", "conversation_id", "file_id", "last_message_id", "owner_id",
                    "parent_id", "peer_user_id", "product_id", "product_image_file_id", "rated_user_id", "rater_id", "reported_user_id",
                    "reporter_id", "reviewed_by", "sender_id", "target_user_id", "uploader_user_id", "user_a_id", "user_b_id", "user_id"}
  {
  }

  // The rule table is a plain object, so these keys find something in it too.
  const INHERITED_KEYS := {"constructor", "toString", "toLocaleString", "valueOf", "hasOwnProperty", "isPrototypeOf",
                           "propertyIsEnumerable", "__defineGetter__", "__defineSetter__", "__lookupGetter__", "__lookupSetter__"}

  const FK_RULES: Rules := (map key | key in INHERITED_KEYS :: To(NoEntity)) + DECLARED_RULES

  // ---------- Keys and ids ----------

  predicate HasKey(entries: seq<Entry>, key: string) {
    exists i :: 0 <= i < |entries| && entries[i].key == key
  }

  predicate Expands(rules: Rules, key: string, container: seq<Entry>) {
    key in rules && (!rules[key].unlessOwnerType || !HasKey(container, "owner_type"))
  }

  function DeriveOutputKey(key: string): string {
    if |key| >= 3 && key[|key| - 3..] == "_id" then key[..|key| - 3] else key
  }

  function OutputKey(rules: Rules, key: string): string
    requires key in rules
  {
    match rules[key].outputKey
    case Some(k) => k
    case None => DeriveOutputKey(key)
  }

  function Digits(s: string): Option<int> {
    if s == [] then Some(0)
    else
      var n := |s| - 1;
      match Digits(s[..n])
      case None => None
      case Some(d) => if '0' <= s[n] <= '9' then Some(10 * d + (s[n] as int - '0' as int)) else None
  }

  function ToPositiveInt(value: Json): Option<int> {
    match value
    case Number(n) => if n == n.Floor as real && n.Floor > 0 then Some(n.Floor) else None
    case Str(s) =>
      (match Digits(s)
       case Some(d) => if s != [] && d > 0 then Some(d) else None
       case None => None)
    case _ => None
  }

  /** `user_id` comes out as `user`: the suffix is dropped from every key that has it. */
  lemma SuffixDropped(stem: string)
    ensures DeriveOutputKey(stem + "_id") == stem
  {
    var key := stem + "_id";
    assert key[|key| - 3..] == "_id" && key[..|key| - 3] == stem;
  }

  /** A key without it is kept. */
  lemma OtherKeyKept(key: string)
    requires forall stem: string :: key != stem + "_id"
    ensures DeriveOutputKey(key) == key
  {
    if |key| >= 3 {
      assert key == key[..|key| - 3] + key[|key| - 3..];
    }
  }

  function Zeros(n: nat): string {
    seq(n, i => '0')
  }

  // The positive integer a value stands for: as a number, or as decimal text that may have leading zeros.
  ghost predicate Denotes(value: Json, id: int) {
    && id > 0
    && match value
       case Number(n) => n == id as real
       case Str(s) => exists n: nat :: s == Zeros(n) + Decimal(id)
       case _ => false
  }

  lemma {:induction false} DigitsOfZeros(n: nat)
    ensures Digits(Zeros(n)) == Some(0)
  {
    if n > 0 {
      DigitsOfZeros(n - 1);
      assert Zeros(n)[..n - 1] == Zeros(n - 1);
    }
  }

  lemma {:induction false} DigitsOfDecimal(n: nat, id: nat)
    ensures Digits(Zeros(n) + Decimal(id)) == Some(id)
  {
    var s := Zeros(n) + Decimal(id);
    if id < 10 {
      DigitsOfZeros(n);
      assert s[..|s| - 1] == Zeros(n);
    } else {
      DigitsOfDecimal(n, id / 10);
      assert s[..|s| - 1] == Zeros(n) + Decimal(id / 10);
    }
  }

  lemma DigitChar(c: char)
    requires '0' <= c <= '9'
    ensures Digit(c as int - '0' as int) == c
  {
  }

  lemma LastDigit(d: nat, c: char)
    requires '0' <= c <= '9'
    ensures Decimal(10 * d + (c as int - '0' as int)) == if d == 0 then [c] else Decimal(d) + [c]
  {
    DigitChar(c);
  }

  // One digit more behind zeros and a decimal.
  lemma OneMoreDigit(n: nat, d: nat, c: char) returns (m: nat)
    requires '0' <= c <= '9'
    ensures Zeros(n) + Decimal(d) + [c] == Zeros(m) + Decimal(10 * d + (c as int - '0' as int))
  {
    LastDigit(d, c);
    if d == 0 {
      m := n + 1;
      DigitChar('0');
      assert Zeros(n + 1) == Zeros(n) + Decimal(0);
    } else {
      m := n;
    }
  }

  lemma {:induction false} DigitsAreDecimal(s: string) returns (n: nat)
    requires s != [] && Digits(s).Some?
    ensures Digits(s).value >= 0 && s == Zeros(n) + Decimal(Digits(s).value)
  {
    var m := |s| - 1;
    assert s == s[..m] + [s[m]];
    if m == 0 {
      n := 0;
      LastDigit(0, s[0]);
    } else {
      n := DigitsAreDecimal(s[..m]);
      n := OneMoreDigit(n, Digits(s[..m]).value, s[m]);
    }
  }

  /** What counts as an id: exactly the values that denote it. */
  lemma IdIff(value: Json, id: int)
    ensures ToPositiveInt(value) == Some(id) <==> Denotes(value, id)
  {
    match value
    case Str(s) =>
      if ToPositiveInt(value) == Some(id) {
        var n := DigitsAreDecimal(s);
      }
      if n: nat :| id > 0 && s == Zeros(n) + Decimal(id) {
        DigitsOfDecimal(n, id);
      }
    case _ =>
  }

  // ---------- The naive rewrite: every foreign key looked up where it stands ----------

  type Lookup = (Entity, int) -> Json

  function Referenced(rule: Rule, value: Json, lookup: Lookup): Json {
    match ToPositiveInt(value)
    case None => Null
    case Some(id) => lookup(rule.entity, id)
  }

  function Rewrite(rules: Rules, node: Json, lookup: Lookup): Json
    decreases node, 0
  {
    match node
    case Arr(items) => Arr(RewriteItems(rules, items, lookup))
    case Obj(entries) => Obj(RewriteEntries(rules, entries, entries, lookup))
    case Date(_) => Obj([])  // an object without entries of its own
    case _ => node
  }

  function RewriteItems(rules: Rules, items: seq<Json>, lookup: Lookup): (r: seq<Json>)
    decreases items
  {
    if items == [] then []
    else RewriteItems(rules, items[..|items| - 1], lookup) + [Rewrite(rules, items[|items| - 1], lookup)]
  }

  // The first entry to claim an output key keeps it.
  function RewriteEntries(rules: Rules, entries: seq<Entry>, container: seq<Entry>, lookup: Lookup): seq<Entry>
    decreases entries
  {
    if entries == [] then []
    else
      var out := RewriteEntries(rules, entries[..|entries| - 1], container, lookup);
      var e := entries[|entries| - 1];
      if Expands(rules, e.key, container) then
        var key := OutputKey(rules, e.key);
        if HasKey(out, key) then out else out + [Entry(key, Referenced(rules[e.key], e.value, lookup))]
      else if HasKey(out, e.key) then out
      else out + [Entry(e.key, Rewrite(rules, e.value, lookup))]
  }

  // ---------- The ids a payload names ----------

  datatype Ref = Ref(entity: Entity, id: int)

  function Named(rule: Rule, value: Json): set<Ref> {
    match ToPositiveInt(value)
    case None => {}
    case Some(id) => {Ref(rule.entity, id)}
  }

  function Refs(rules: Rules, node: Json): set<Ref>
    decreases node, 0
  {
    match node
    case Arr(items) => RefsOfItems(rules, items)
    case Obj(entries) => RefsOfEntries(rules, entries, entries)
    case _ => {}
  }

  function RefsOfItems(rules: Rules, items: seq<Json>): set<Ref>
    decreases items
  {
    if items == [] then {}
    else RefsOfItems(rules, items[..|items| - 1]) + Refs(rules, items[|items| - 1])
  }

  // Values are walked under every key, expanded or not.
  function RefsOfEntries(rules: Rules, entries: seq<Entry>, container: seq<Entry>): set<Ref>
    decreases entries
  {
    if entries == [] then {}
    else
      var e := entries[|entries| - 1];
      RefsOfEntries(rules, entries[..|entries| - 1], container) + RefsOfEntry(rules, e, container)
  }

  function RefsOfEntry(rules: Rules, e: Entry, container: seq<Entry>): set<Ref>
    decreases e
  {
    (if Expands(rules, e.key, container) then Named(rules[e.key], e.value) else {}) + Refs(rules, e.value)
  }

  // ---------- The rewrite needs no other id ----------

  ghost predicate AgreeOn(f: Lookup, g: Lookup, refs: set<Ref>) {
    forall r :: r in refs ==> f(r.entity, r.id) == g(r.entity, r.id)
  }

  lemma {:induction false} RewriteNeedsOnlyRefs(rules: Rules, node: Json, f: Lookup, g: Lookup)
    requires AgreeOn(f, g, Refs(rules, node))
    ensures Rewrite(rules, node, f) == Rewrite(rules, node, g)
    decreases node, 0
  {
    match node
    case Arr(items) => ItemsNeedOnlyRefs(rules, items, f, g);
    case Obj(entries) => EntriesNeedOnlyRefs(rules, entries, entries, f, g);
    case _ =>
  }

  lemma {:induction false} ItemsNeedOnlyRefs(rules: Rules, items: seq<Json>, f: Lookup, g: Lookup)
    requires AgreeOn(f, g, RefsOfItems(rules, items))
    ensures RewriteItems(rules, items, f) == RewriteItems(rules, items, g)
    decreases items
  {
    if items != [] {
      ItemsNeedOnlyRefs(rules, items[..|items| - 1], f, g);
      RewriteNeedsOnlyRefs(rules, items[|items| - 1], f, g);
    }
  }

  lemma {:induction false} EntriesNeedOnlyRefs(rules: Rules, entries: seq<Entry>, container: seq<Entry>, f: Lookup, g: Lookup)
    requires AgreeOn(f, g, RefsOfEntries(rules, entries, container))
    ensures RewriteEntries(rules, entries, container, f) == RewriteEntries(rules, entries, container, g)
    decreases entries
  {
    if entries != [] {
      var e := entries[|entries| - 1];
      EntriesNeedOnlyRefs(rules, entries[..|entries| - 1], container, f, g);
      assert Refs(rules, e.value) <= RefsOfEntry(rules, e, container) <= RefsOfEntries(rules, entries, container);
      RewriteNeedsOnlyRefs(rules, e.value, f, g);
      if Expands(rules, e.key, container) && ToPositiveInt(e.value).Some? {
        var r := Ref(rules[e.key].entity, ToPositiveInt(e.value).value);
        assert r in RefsOfEntries(rules, entries, container);
      }
    }
  }

  // ---------- Bulk fetching ----------

  // The rows each entity's query can return, by id.
  type Database = map<Entity, map<int, Json>>
  type Maps = map<Entity, map<int, Json>>

  function InMaps(maps: Maps): Lookup {
    (entity, id) => if entity in maps && id in maps[entity] then maps[entity][id] else Null
  }

  function Fetch(db: Database, entity: Entity, ids: set<int>): map<int, Json> {
    map id | id in ids && entity in db && id in db[entity] :: db[entity][id]
  }

  // The collected ids, as the code keeps them: a set per entity type.
  function Holds(ids: map<Entity, set<int>>, r: Ref): bool {
    r.entity in ids && r.id in ids[r.entity]
  }

  ghost predicate Collects(ids: map<Entity, set<int>>, refs: set<Ref>) {
    && (forall r :: r in refs ==> Holds(ids, r))
    && (forall e, i :: e in ids && i in ids[e] ==> Ref(e, i) in refs)
  }

  /** Rewriting with only the collected ids fetched is rewriting with the whole database at hand. */
  lemma BatchedEqualsNaive(rules: Rules, payload: Json, db: Database, ids: map<Entity, set<int>>, maps: Maps)
    requires Collects(ids, Refs(rules, payload))
    requires forall e :: e in maps <==> e in ids
    requires forall e :: e in ids ==> maps[e] == Fetch(db, e, ids[e])
    ensures Rewrite(rules, payload, InMaps(maps)) == Rewrite(rules, payload, InMaps(db))
  {
    forall r | r in Refs(rules, payload)
      ensures InMaps(maps)(r.entity, r.id) == InMaps(db)(r.entity, r.id)
    {
      assert Holds(ids, r);
    }
    RewriteNeedsOnlyRefs(rules, payload, InMaps(maps), InMaps(db));
  }

  // ---------- What the rewrite keeps ----------

  predicate DistinctKeys(entries: seq<Entry>) {
    forall i, j :: 0 <= i < j < |entries| ==> entries[i].key != entries[j].key
  }

  /** Colliding output keys never yield a duplicate: every rewritten object has distinct keys. */
  lemma {:induction false} RewrittenKeysDistinct(rules: Rules, entries: seq<Entry>, container: seq<Entry>, lookup: Lookup)
    ensures DistinctKeys(RewriteEntries(rules, entries, container, lookup))
  {
    if entries != [] {
      RewrittenKeysDistinct(rules, entries[..|entries| - 1], container, lookup);
    }
  }

  // No object in the tree has a foreign key, and none repeats a key.
  predicate Plain(rules: Rules, node: Json)
    decreases node, 0
  {
    match node
    case Arr(items) => forall i :: 0 <= i < |items| ==> Plain(rules, items[i])
    case Obj(entries) =>
      DistinctKeys(entries) && forall i :: 0 <= i < |entries| ==> entries[i].key !in rules && Plain(rules, entries[i].value)
    case _ => true
  }

  // No date anywhere in the tree.
  predicate Dateless(node: Json)
    decreases node, 0
  {
    match node
    case Arr(items) => forall i :: 0 <= i < |items| ==> Dateless(items[i])
    case Obj(entries) => forall i :: 0 <= i < |entries| ==> Dateless(entries[i].value)
    case Date(_) => false
    case _ => true
  }

  /** A payload without foreign keys and dates comes back as it was. */
  lemma {:induction false} PlainUnchanged(rules: Rules, node: Json, lookup: Lookup)
    requires Plain(rules, node) && Dateless(node)
    ensures Rewrite(rules, node, lookup) == node
    decreases node, 0
  {
    match node
    case Arr(items) =>
      PlainItemsUnchanged(rules, items, lookup);
    case Obj(entries) =>
      PlainEntriesUnchanged(rules, entries, entries, lookup);
    case _ =>
  }

  lemma {:induction false} PlainItemsUnchanged(rules: Rules, items: seq<Json>, lookup: Lookup)
    requires forall i :: 0 <= i < |items| ==> Plain(rules, items[i]) && Dateless(items[i])
    ensures RewriteItems(rules, items, lookup) == items
    decreases items
  {
    if items != [] {
      PlainItemsUnchanged(rules, items[..|items| - 1], lookup);
      PlainUnchanged(rules, items[|items| - 1], lookup);
    }
  }

  lemma {:induction false} PlainEntriesUnchanged(rules: Rules, entries: seq<Entry>, container: seq<Entry>, lookup: Lookup)
    requires DistinctKeys(entries)
    requires forall i :: 0 <= i < |entries| ==> entries[i].key !in rules && Plain(rules, entries[i].value)
    requires forall i :: 0 <= i < |entries| ==> Dateless(entries[i].value)
    ensures RewriteEntries(rules, entries, container, lookup) == entries
    decreases entries
  {
    if entries != [] {
      PlainEntriesUnchanged(rules, entries[..|entries| - 1], container, lookup);
      PlainUnchanged(rules, entries[|entries| - 1].value, lookup);
    }
  }

  // ---------- Dates ----------

  /** No date of a payload survives: those of the response all lie within fetched records. */
  lemma {:induction false} DatesComeFromRecords(rules: Rules, node: Json, lookup: Lookup)
    requires forall r :: r in Refs(rules, node) ==> Dateless(lookup(r.entity, r.id))
    ensures Dateless(Rewrite(rules, node, lookup))
    decreases node, 0
  {
    match node
    case Arr(items) => ItemsLoseDates(rules, items, lookup);
    case Obj(entries) => EntriesLoseDates(rules, entries, entries, lookup);
    case _ =>
  }

  lemma {:induction false} ItemsLoseDates(rules: Rules, items: seq<Json>, lookup: Lookup)
    requires forall r :: r in RefsOfItems(rules, items) ==> Dateless(lookup(r.entity, r.id))
    ensures Dateless(Arr(RewriteItems(rules, items, lookup)))
    decreases items
  {
    if items != [] {
      ItemsLoseDates(rules, items[..|items| - 1], lookup);
      DatesComeFromRecords(rules, items[|items| - 1], lookup);
    }
  }

  lemma {:induction false} EntriesLoseDates(rules: Rules, entries: seq<Entry>, container: seq<Entry>, lookup: Lookup)
    requires forall r :: r in RefsOfEntries(rules, entries, container) ==> Dateless(lookup(r.entity, r.id))
    ensures Dateless(Obj(RewriteEntries(rules, entries, container, lookup)))
    decreases entries
  {
    if entries != [] {
      var e := entries[|entries| - 1];
      EntriesLoseDates(rules, entries[..|entries| - 1], container, lookup);
      assert Refs(rules, e.value) <= RefsOfEntry(rules, e, container) <= RefsOfEntries(rules, entries, container);
      DatesComeFromRecords(rules, e.value, lookup);
      if Expands(rules, e.key, container) && ToPositiveInt(e.value).Some? {
        var r := Ref(rules[e.key].entity, ToPositiveInt(e.value).value);
        assert r in RefsOfEntries(rules, entries, container);
      }
    }
  }

  // A payload without the keys of `known` names only records of what the other rules stand for.
  lemma {:induction false} PlainNamesOnly(rules: Rules, known: Rules, others: set<Entity>, node: Json)
    requires Plain(known, node) && forall k :: k in rules && k !in known ==> rules[k].entity in others
    ensures forall r :: r in Refs(rules, node) ==> r.entity in others
    decreases node, 0
  {
    match node
    case Arr(items) => PlainItemsNameOnly(rules, known, others, items);
    case Obj(entries) => PlainEntriesNameOnly(rules, known, others, entries, entries);
    case _ =>
  }

  lemma {:induction false} PlainItemsNameOnly(rules: Rules, known: Rules, others: set<Entity>, items: seq<Json>)
    requires forall i :: 0 <= i < |items| ==> Plain(known, items[i])
    requires forall k :: k in rules && k !in known ==> rules[k].entity in others
    ensures forall r :: r in RefsOfItems(rules, items) ==> r.entity in others
    decreases items
  {
    if items != [] {
      PlainItemsNameOnly(rules, known, others, items[..|items| - 1]);
      PlainNamesOnly(rules, known, others, items[|items| - 1]);
    }
  }

  lemma {:induction false} PlainEntriesNameOnly(rules: Rules, known: Rules, others: set<Entity>,
                                                 entries: seq<Entry>, container: seq<Entry>)
    requires forall i :: 0 <= i < |entries| ==> entries[i].key !in known && Plain(known, entries[i].value)
    requires forall k :: k in rules && k !in known ==> rules[k].entity in others
    ensures forall r :: r in RefsOfEntries(rules, entries, container) ==> r.entity in others
    decreases entries
  {
    if entries != [] {
      PlainEntriesNameOnly(rules, known, others, entries[..|entries| - 1], container);
      PlainNamesOnly(rules, known, others, entries[|entries| - 1].value);
    }
  }

  /** A payload without foreign keys comes back unchanged exactly when there is no date in it. */
  lemma PlainUnchangedIff(rules: Rules, node: Json, lookup: Lookup)
    requires Plain(rules, node)
    ensures Rewrite(rules, node, lookup) == node <==> Dateless(node)
  {
    PlainNamesOnly(rules, rules, {}, node);
    DatesComeFromRecords(rules, node, lookup);
    if Dateless(node) {
      PlainUnchanged(rules, node, lookup);
    }
  }

  // ---------- Keys that name an inherited property ----------

  // `full` is `declared` and, under the inherited keys, rules of no entity.
  ghost predicate Inherits(full: Rules, declared: Rules, inherited: set<string>) {
    && (forall k :: k in declared ==> k in full && full[k] == declared[k])
    && (forall k :: k !in declared ==> (k in full <==> k in inherited))
    && (forall k :: k in full && k !in declared ==> full[k] == To(NoEntity) && DeriveOutputKey(k) == k)
  }

  // No query fetches a record of no entity.
  ghost predicate FetchesEntities(lookup: Lookup) {
    forall id :: lookup(NoEntity, id) == Null
  }

  lemma NotAnId(key: string)
    requires key != [] && key[|key| - 1] != 'd'
    ensures DeriveOutputKey(key) == key
  {
    if |key| >= 3 {
      assert key[|key| - 3..][2] == key[|key| - 1];
    }
  }

  lemma InheritedKeyEnds(key: string)
    requires key in INHERITED_KEYS
    ensures key != [] && key[|key| - 1] != 'd'
  {
  }

  lemma InheritsByAddition(declared: Rules, inherited: set<string>)
    ensures var full := (map key | key in inherited :: To(NoEntity)) + declared;
      && (forall k :: k in declared ==> k in full && full[k] == declared[k])
      && (forall k :: k !in declared ==> (k in full <==> k in inherited))
      && (forall k :: k in full && k !in declared ==> full[k] == To(NoEntity))
  {
  }

  lemma RulesInherit()
    ensures Inherits(FK_RULES, DECLARED_RULES, INHERITED_KEYS)
  {
    InheritsByAddition(DECLARED_RULES, INHERITED_KEYS);
    forall k | k in INHERITED_KEYS ensures DeriveOutputKey(k) == k {
      InheritedKeyEnds(k);
      NotAnId(k);
    }
  }

  // The output key an entry asks for.
  function ClaimedKey(rules: Rules, e: Entry, container: seq<Entry>): string {
    if Expands(rules, e.key, container) then OutputKey(rules, e.key) else e.key
  }

  predicate Claimed(rules: Rules, entries: seq<Entry>, container: seq<Entry>, key: string) {
    exists i :: 0 <= i < |entries| && ClaimedKey(rules, entries[i], container) == key
  }

  lemma OneMoreClaim(rules: Rules, entries: seq<Entry>, container: seq<Entry>, key: string)
    requires entries != []
    ensures var n := |entries| - 1;
      Claimed(rules, entries, container, key) <==>
        Claimed(rules, entries[..n], container, key) || ClaimedKey(rules, entries[n], container) == key
  {
    var n := |entries| - 1;
    assert forall i :: 0 <= i < n ==> entries[..n][i] == entries[i];
  }

  lemma HasKeyAppended(entries: seq<Entry>, e: Entry, key: string)
    ensures HasKey(entries + [e], key) <==> HasKey(entries, key) || e.key == key
  {
    assert forall i :: 0 <= i < |entries| ==> (entries + [e])[i] == entries[i];
    assert (entries + [e])[|entries|] == e;
  }

  // The rewrite has exactly the keys that some entry claims.
  lemma {:induction false} KeysAreClaimed(rules: Rules, entries: seq<Entry>, container: seq<Entry>, lookup: Lookup, key: string)
    ensures HasKey(RewriteEntries(rules, entries, container, lookup), key) <==> Claimed(rules, entries, container, key)
  {
    if entries != [] {
      var n := |entries| - 1;
      var e := entries[n];
      KeysAreClaimed(rules, entries[..n], container, lookup, key);
      KeysAreClaimed(rules, entries[..n], container, lookup, ClaimedKey(rules, e, container));
      OneMoreClaim(rules, entries, container, key);
      var out := RewriteEntries(rules, entries[..n], container, lookup);
      if Expands(rules, e.key, container) {
        HasKeyAppended(out, Entry(OutputKey(rules, e.key), Referenced(rules[e.key], e.value, lookup)), key);
      } else {
        HasKeyAppended(out, Entry(e.key, Rewrite(rules, e.value, lookup)), key);
      }
    }
  }

  // Wherever an undeclared key is inherited, and its entry is neither expanded away nor crowded out, it holds null.
  predicate Harmless(declared: Rules, inherited: set<string>, node: Json)
    decreases node, 0
  {
    match node
    case Arr(items) => HarmlessItems(declared, inherited, items)
    case Obj(entries) => HarmlessEntries(declared, inherited, entries, entries)
    case _ => true
  }

  predicate HarmlessItems(declared: Rules, inherited: set<string>, items: seq<Json>)
    decreases items
  {
    items == [] || (HarmlessItems(declared, inherited, items[..|items| - 1]) && Harmless(declared, inherited, items[|items| - 1]))
  }

  predicate HarmlessEntry(declared: Rules, inherited: set<string>, before: seq<Entry>, e: Entry, container: seq<Entry>)
    decreases e
  {
    || Expands(declared, e.key, container)
    || Claimed(declared, before, container, e.key)
    || (if e.key !in declared && e.key in inherited then e.value == Null else Harmless(declared, inherited, e.value))
  }

  predicate HarmlessEntries(declared: Rules, inherited: set<string>, entries: seq<Entry>, container: seq<Entry>)
    decreases entries
  {
    entries == []
    || (&& HarmlessEntries(declared, inherited, entries[..|entries| - 1], container)
        && HarmlessEntry(declared, inherited, entries[..|entries| - 1], entries[|entries| - 1], container))
  }

  lemma SameClaims(full: Rules, declared: Rules, inherited: set<string>, e: Entry, container: seq<Entry>)
    requires Inherits(full, declared, inherited)
    ensures ClaimedKey(full, e, container) == ClaimedKey(declared, e, container)
    ensures Expands(declared, e.key, container) ==> Expands(full, e.key, container) && full[e.key] == declared[e.key]
    ensures !Expands(declared, e.key, container) ==>
      (Expands(full, e.key, container) <==> e.key !in declared && e.key in inherited)
  {
  }

  lemma RewriteIsNull(rules: Rules, node: Json, lookup: Lookup)
    ensures Rewrite(rules, node, lookup) == Null <==> node == Null
  {
  }

  lemma AppendedEqual<T>(a: seq<T>, b: seq<T>, x: T, y: T)
    requires |a| == |b|
    ensures a + [x] == b + [y] <==> a == b && x == y
  {
    if a + [x] == b + [y] {
      assert a == (a + [x])[..|a|] && b == (b + [y])[..|b|];
      assert (a + [x])[|a|] == x && (b + [y])[|b|] == y;
    }
  }

  // What the last entry adds under the one rule set and the other.
  lemma LastEntryIff(full: Rules, declared: Rules, inherited: set<string>, entries: seq<Entry>, container: seq<Entry>, lookup: Lookup)
    requires Inherits(full, declared, inherited) && FetchesEntities(lookup) && entries != []
    requires var n := |entries| - 1;
      var e, key := entries[n], ClaimedKey(declared, entries[n], container);
      var f, d := RewriteEntries(full, entries[..n], container, lookup), RewriteEntries(declared, entries[..n], container, lookup);
      && |f| == |d|
      && (HasKey(f, key) <==> Claimed(declared, entries[..n], container, key))
      && (HasKey(d, key) <==> Claimed(declared, entries[..n], container, key))
      && (Rewrite(full, e.value, lookup) == Rewrite(declared, e.value, lookup) <==> Harmless(declared, inherited, e.value))
    ensures var n := |entries| - 1;
      var f, d := RewriteEntries(full, entries, container, lookup), RewriteEntries(declared, entries, container, lookup);
      && |f| == |d|
      && (f == d <==>
            && RewriteEntries(full, entries[..n], container, lookup) == RewriteEntries(declared, entries[..n], container, lookup)
            && HarmlessEntry(declared, inherited, entries[..n], entries[n], container))
  {
    var n := |entries| - 1;
    var e := entries[n];
    SameClaims(full, declared, inherited, e, container);
    RewriteIsNull(declared, e.value, lookup);
    var f, d := RewriteEntries(full, entries[..n], container, lookup), RewriteEntries(declared, entries[..n], container, lookup);
    var x := if Expands(full, e.key, container) then Entry(OutputKey(full, e.key), Referenced(full[e.key], e.value, lookup))
             else Entry(e.key, Rewrite(full, e.value, lookup));
    var y := if Expands(declared, e.key, container) then Entry(OutputKey(declared, e.key), Referenced(declared[e.key], e.value, lookup))
             else Entry(e.key, Rewrite(declared, e.value, lookup));
    AppendedEqual(f, d, x, y);
  }

  /**
   The expansion differs from the one its declared rules ask for exactly by the values it
   loses: for every payload, the two agree if and only if each inherited key that reaches
   the output holds null.
   */
  lemma {:induction false} AsDeclaredIff(full: Rules, declared: Rules, inherited: set<string>, node: Json, lookup: Lookup)
    requires Inherits(full, declared, inherited) && FetchesEntities(lookup)
    ensures Rewrite(full, node, lookup) == Rewrite(declared, node, lookup) <==> Harmless(declared, inherited, node)
    decreases node, 0
  {
    match node
    case Arr(items) => ItemsAsDeclaredIff(full, declared, inherited, items, lookup);
    case Obj(entries) => EntriesAsDeclaredIff(full, declared, inherited, entries, entries, lookup);
    case _ =>
  }

  lemma {:induction false} ItemsAsDeclaredIff(full: Rules, declared: Rules, inherited: set<string>, items: seq<Json>, lookup: Lookup)
    requires Inherits(full, declared, inherited) && FetchesEntities(lookup)
    ensures |RewriteItems(full, items, lookup)| == |items| == |RewriteItems(declared, items, lookup)|
    ensures RewriteItems(full, items, lookup) == RewriteItems(declared, items, lookup) <==> HarmlessItems(declared, inherited, items)
    decreases items
  {
    if items != [] {
      var n := |items| - 1;
      ItemsAsDeclaredIff(full, declared, inherited, items[..n], lookup);
      AsDeclaredIff(full, declared, inherited, items[n], lookup);
      AppendedEqual(RewriteItems(full, items[..n], lookup), RewriteItems(declared, items[..n], lookup),
                    Rewrite(full, items[n], lookup), Rewrite(declared, items[n], lookup));
    }
  }

  lemma {:induction false} EntriesAsDeclaredIff(full: Rules, declared: Rules, inherited: set<string>,
                                                entries: seq<Entry>, container: seq<Entry>, lookup: Lookup)
    requires Inherits(full, declared, inherited) && FetchesEntities(lookup)
    ensures |RewriteEntries(full, entries, container, lookup)| == |RewriteEntries(declared, entries, container, lookup)|
    ensures forall key :: Claimed(full, entries, container, key) <==> Claimed(declared, entries, container, key)
    ensures RewriteEntries(full, entries, container, lookup) == RewriteEntries(declared, entries, container, lookup)
      <==> HarmlessEntries(declared, inherited, entries, container)
    decreases entries
  {
    if entries != [] {
      var n := |entries| - 1;
      var e := entries[n];
      EntriesAsDeclaredIff(full, declared, inherited, entries[..n], container, lookup);
      AsDeclaredIff(full, declared, inherited, e.value, lookup);
      SameClaims(full, declared, inherited, e, container);
      forall key ensures Claimed(full, entries, container, key) <==> Claimed(declared, entries, container, key) {
        OneMoreClaim(full, entries, container, key);
        OneMoreClaim(declared, entries, container, key);
      }
      var key := ClaimedKey(declared, e, container);
      KeysAreClaimed(full, entries[..n], container, lookup, key);
      KeysAreClaimed(declared, entries[..n], container, lookup, key);
      LastEntryIff(full, declared, inherited, entries, container, lookup);
    }
  }

  /**
   A payload without declared foreign keys comes back unchanged exactly when each of its
   inherited keys holds null and there is no date in it.
   */
  lemma UnchangedIff(node: Json, lookup: Lookup)
    requires FetchesEntities(lookup) && Plain(DECLARED_RULES, node)
    ensures Rewrite(FK_RULES, node, lookup) == node
      <==> Harmless(DECLARED_RULES, INHERITED_KEYS, node) && Dateless(node)
  {
    RulesInherit();
    PlainNamesOnly(FK_RULES, DECLARED_RULES, {NoEntity}, node);
    DatesComeFromRecords(FK_RULES, node, lookup);
    if Dateless(node) {
      AsDeclaredIff(FK_RULES, DECLARED_RULES, INHERITED_KEYS, node, lookup);
      PlainUnchanged(DECLARED_RULES, node, lookup);
    }
  }

  // What one entry becomes, if its output key is free.
  function Rewritten(rules: Rules, e: Entry, container: seq<Entry>, lookup: Lookup): Entry {
    if Expands(rules, e.key, container) then Entry(OutputKey(rules, e.key), Referenced(rules[e.key], e.value, lookup))
    else Entry(e.key, Rewrite(rules, e.value, lookup))
  }

  lemma RewriteOneEntry(rules: Rules, e: Entry, container: seq<Entry>, lookup: Lookup)
    ensures RewriteEntries(rules, [e], container, lookup) == [Rewritten(rules, e, container, lookup)]
  {
    assert [e][..0] == [] && RewriteEntries(rules, [e][..0], container, lookup) == [];
    var x := Rewritten(rules, e, container, lookup);
    assert !HasKey([], x.key) && [] + [x] == [x];
  }

  lemma RewriteOneKey(rules: Rules, key: string, value: Json, lookup: Lookup)
    ensures var container := [Entry(key, value)];
      Rewrite(rules, Obj(container), lookup) ==
        Obj([if Expands(rules, key, container) then Entry(OutputKey(rules, key), Referenced(rules[key], value, lookup))
             else Entry(key, Rewrite(rules, value, lookup))])
  {
    RewriteOneEntry(rules, Entry(key, value), [Entry(key, value)], lookup);
  }

  lemma UndeclaredKey(full: Rules, declared: Rules, inherited: set<string>, key: string, value: Json, lookup: Lookup)
    requires Inherits(full, declared, inherited) && FetchesEntities(lookup) && key !in declared
    ensures Rewrite(full, Obj([Entry(key, value)]), lookup)
         == Obj([Entry(key, if key in inherited then Null else Rewrite(full, value, lookup))])
  {
    RewriteOneKey(full, key, value, lookup);
  }

  lemma UndeclaredKeyIff(full: Rules, declared: Rules, inherited: set<string>, key: string, value: Json, lookup: Lookup)
    requires Inherits(full, declared, inherited) && FetchesEntities(lookup) && key !in declared && Plain(full, value)
    ensures Rewrite(full, Obj([Entry(key, value)]), lookup) == Obj([Entry(key, value)])
      <==> value == Null || (key !in inherited && Dateless(value))
  {
    UndeclaredKey(full, declared, inherited, key, value, lookup);
    var kept := Entry(key, if key in inherited then Null else Rewrite(full, value, lookup));
    assert [kept][0] == kept && [Entry(key, value)][0] == Entry(key, value);
    PlainUnchangedIff(full, value, lookup);
  }

  /**
   One undeclared key over a plain value: the value survives exactly when it is null, or
   when the key is not inherited and there is no date in the value.
   */
  lemma OneKeyUnchangedIff(key: string, value: Json, lookup: Lookup)
    requires FetchesEntities(lookup) && key !in DECLARED_RULES && Plain(FK_RULES, value)
    ensures Rewrite(FK_RULES, Obj([Entry(key, value)]), lookup) == Obj([Entry(key, value)])
      <==> value == Null || (key !in INHERITED_KEYS && Dateless(value))
  {
    RulesInherit();
    UndeclaredKeyIff(FK_RULES, DECLARED_RULES, INHERITED_KEYS, key, value, lookup);
  }

  lemma ForeignKeyUnder(full: Rules, declared: Rules, inherited: set<string>, stem: string, value: Json, db: Database)
    requires Inherits(full, declared, inherited)
    requires stem + "_id" in declared && declared[stem + "_id"].outputKey == None
    ensures var r := Rewrite(full, Obj([Entry(stem + "_id", value)]), InMaps(db));
      var entity := declared[stem + "_id"].entity;
      && (forall id :: Denotes(value, id) ==>
            r == Obj([Entry(stem, if entity in db && id in db[entity] then db[entity][id] else Null)]))
      && ((forall id :: !Denotes(value, id)) ==> r == Obj([Entry(stem, Null)]))
  {
    var key := stem + "_id";
    SuffixDropped(stem);
    RewriteOneKey(full, key, value, InMaps(db));
    assert key[|key| - 1] == 'd' && key != "owner_type";
    assert Expands(full, key, [Entry(key, value)]);
    var id := ToPositiveInt(value);
    if id.Some? {
      IdIff(value, id.value);
    }
    forall i | Denotes(value, i) ensures id == Some(i) {
      IdIff(value, i);
    }
  }

  /**
   A payload with one declared foreign key `stem_id` becomes one entry named `stem`: the
   record of the key's entity under the id that the value denotes, and null if it denotes
   none or there is no such record.
   */
  lemma ForeignKeyExpands(stem: string, value: Json, db: Database)
    requires stem + "_id" in DECLARED_RULES && DECLARED_RULES[stem + "_id"].outputKey == None
    ensures var r := Rewrite(FK_RULES, Obj([Entry(stem + "_id", value)]), InMaps(db));
      var entity := DECLARED_RULES[stem + "_id"].entity;
      && (forall id :: Denotes(value, id) ==>
            r == Obj([Entry(stem, if entity in db && id in db[entity] then db[entity][id] else Null)]))
      && ((forall id :: !Denotes(value, id)) ==> r == Obj([Entry(stem, Null)]))
  {
    RulesInherit();
    ForeignKeyUnder(FK_RULES, DECLARED_RULES, INHERITED_KEYS, stem, value, db);
  }

  lemma ConstructorRule()
    ensures "constructor" !in DECLARED_RULES && "constructor" in INHERITED_KEYS
  {
  }

  /** So a flag named `constructor` comes back as null, whatever the database holds. */
  lemma ConstructorIsLost(lookup: Lookup)
    ensures Rewrite(FK_RULES, Obj([Entry("constructor", Bool(true))]), lookup) == Obj([Entry("constructor", Null)])
  {
    RulesInherit();
    RewriteOneKey(FK_RULES, "constructor", Bool(true), lookup);
    ConstructorRule();
  }

  lemma DateUnderKey(full: Rules, declared: Rules, inherited: set<string>, key: string, t: int, lookup: Lookup)
    requires Inherits(full, declared, inherited) && key !in declared && key !in inherited
    ensures var row := Obj([Entry(key, Date(t))]);
      && Plain(full, row) && Harmless(declared, inherited, row)
      && Rewrite(full, row, lookup) == Obj([Entry(key, Obj([]))]) && Obj([Entry(key, Obj([]))]) != row
  {
    RewriteOneKey(full, key, Date(t), lookup);
    var entries := [Entry(key, Date(t))];
    assert HarmlessEntry(declared, inherited, entries[..0], entries[0], entries);
    assert HarmlessEntries(declared, inherited, entries, entries);
    assert [Entry(key, Obj([]))][0].value != entries[0].value;
  }

  lemma CreatedAtRule()
    ensures "created_at" !in DECLARED_RULES && "created_at" !in INHERITED_KEYS
  {
  }

  /** A row's creation time comes back as an empty object, although no key of the row is a foreign or an inherited one. */
  lemma DateIsLost(t: int, lookup: Lookup)
    ensures var row := Obj([Entry("created_at", Date(t))]);
      && Plain(FK_RULES, row) && Harmless(DECLARED_RULES, INHERITED_KEYS, row)
      && Rewrite(FK_RULES, row, lookup) == Obj([Entry("created_at", Obj([]))])
      && Rewrite(FK_RULES, row, lookup) != row
  {
    RulesInherit();
    CreatedAtRule();
    DateUnderKey(FK_RULES, DECLARED_RULES, INHERITED_KEYS, "created_at", t, lookup);
  }

  // ---------- The service's methods ----------

  method AddId(ids: map<Entity, set<int>>, entity: Entity, id: int, ghost refs: set<Ref>)
    returns (out: map<Entity, set<int>>)
    requires Collects(ids, refs)
    ensures Collects(out, refs + {Ref(entity, id)})
  {
    out := ids;
    if entity !in out {
      out := out[entity := {}];
    }
    out := out[entity := out[entity] + {id}];
  }

  // Adds the ids of `node` to those collected so far.
  method Walk(rules: Rules, node: Json, ids: map<Entity, set<int>>, ghost refs: set<Ref>)
    returns (out: map<Entity, set<int>>)
    requires Collects(ids, refs)
    ensures Collects(out, refs + Refs(rules, node))
    decreases node, 1
  {
    out := ids;
    match node
    case Arr(items) =>
      for i := 0 to |items|
        invariant Collects(out, refs + RefsOfItems(rules, items[..i]))
      {
        out := Walk(rules, items[i], out, refs + RefsOfItems(rules, items[..i]));
        assert items[..i + 1][..i] == items[..i];
        assert refs + RefsOfItems(rules, items[..i]) + Refs(rules, items[i]) == refs + RefsOfItems(rules, items[..i + 1]);
      }
      assert items[..|items|] == items;
    case Obj(entries) =>
      for i := 0 to |entries|
        invariant Collects(out, refs + RefsOfEntries(rules, entries[..i], entries))
      {
        out := WalkEntry(rules, entries[i], entries, out, refs + RefsOfEntries(rules, entries[..i], entries));
        assert entries[..i + 1][..i] == entries[..i];
        assert refs + RefsOfEntries(rules, entries[..i], entries) + RefsOfEntry(rules, entries[i], entries)
            == refs + RefsOfEntries(rules, entries[..i + 1], entries);
      }
      assert entries[..|entries|] == entries;
    case _ =>
  }

  method WalkEntry(rules: Rules, e: Entry, container: seq<Entry>, ids: map<Entity, set<int>>, ghost refs: set<Ref>)
    returns (out: map<Entity, set<int>>)
    requires Collects(ids, refs)
    ensures Collects(out, refs + RefsOfEntry(rules, e, container))
    decreases e
  {
    out := ids;
    ghost var seen := refs;
    if Expands(rules, e.key, container) {
      var id := ToPositiveInt(e.value);
      if id.Some? {
        out := AddId(out, rules[e.key].entity, id.value, seen);
      }
      seen := seen + Named(rules[e.key], e.value);
    }
    out := Walk(rules, e.value, out, seen);
    assert seen + Refs(rules, e.value) == refs + RefsOfEntry(rules, e, container);
  }

  // One query per entity type that was named; their order does not matter.
  method ResolveEntities(ids: map<Entity, set<int>>, db: Database) returns (maps: Maps)
    ensures maps.Keys == ids.Keys
    ensures forall e :: e in ids ==> maps[e] == Fetch(db, e, ids[e])
  {
    maps := map[];
    var todo := ids.Keys;
    while todo != {}
      invariant todo <= ids.Keys && maps.Keys == ids.Keys - todo
      invariant forall e :: e in maps ==> maps[e] == Fetch(db, e, ids[e])
      decreases todo
    {
      var entity :| entity in todo;
      maps := maps[entity := Fetch(db, entity, ids[entity])];
      todo := todo - {entity};
    }
  }

  method TransformNode(rules: Rules, node: Json, maps: Maps) returns (r: Json)
    ensures r == Rewrite(rules, node, InMaps(maps))
    decreases node
  {
    match node
    case Arr(items) =>
      var mapped := [];
      for i := 0 to |items|
        invariant mapped == RewriteItems(rules, items[..i], InMaps(maps))
      {
        var item := TransformNode(rules, items[i], maps);
        mapped := mapped + [item];
        assert items[..i + 1][..i] == items[..i];
      }
      assert items[..|items|] == items;
      r := Arr(mapped);
    case Obj(entries) =>
      var out: seq<Entry> := [];
      for i := 0 to |entries|
        invariant out == RewriteEntries(rules, entries[..i], entries, InMaps(maps))
      {
        var e := entries[i];
        assert entries[..i + 1][..i] == entries[..i];
        if Expands(rules, e.key, entries) {
          var outputKey := OutputKey(rules, e.key);
          if !HasKey(out, outputKey) {
            var id := ToPositiveInt(e.value);
            var record := Null;
            if id.Some? && rules[e.key].entity in maps && id.value in maps[rules[e.key].entity] {
              record := maps[rules[e.key].entity][id.value];
            }
            out := out + [Entry(outputKey, record)];
          }
        } else if !HasKey(out, e.key) {
          var value := TransformNode(rules, e.value, maps);
          out := out + [Entry(e.key, value)];
        }
      }
      assert entries[..|entries|] == entries;
      r := Obj(out);
    case Date(_) => r := Obj([]);
    case _ => r := node;
  }

  /** The whole expansion is the naive rewrite against the database; by the declared rules alone exactly if the payload is harmless. */
  method Expand(payload: Json, db: Database) returns (r: Json)
    requires NoEntity !in db
    ensures r == Rewrite(FK_RULES, payload, InMaps(db))
    ensures r == Rewrite(DECLARED_RULES, payload, InMaps(db)) <==> Harmless(DECLARED_RULES, INHERITED_KEYS, payload)
  {
    var ids := Walk(FK_RULES, payload, map[], {});
    assert {} + Refs(FK_RULES, payload) == Refs(FK_RULES, payload);
    var maps := ResolveEntities(ids, db);
    r := TransformNode(FK_RULES, payload, maps);
    BatchedEqualsNaive(FK_RULES, payload, db, ids, maps);
    RulesInherit();
    AsDeclaredIff(FK_RULES, DECLARED_RULES, INHERITED_KEYS, payload, InMaps(db));
  }
}
