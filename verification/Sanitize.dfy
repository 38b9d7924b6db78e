/**
 Cutting payloads down for the log: a depth-limited copy that drops long tails and hides
 secrets.  The copy is shown to be small whatever the payload, to hide the value of every
 sensitive key at every level, and to depend on none of them.
 */
module Sanitize {
  import opened Numbers

  const MAX_STRING_LENGTH := 300
  const MAX_ARRAY_LENGTH := 20
  const MAX_OBJECT_KEYS := 30
  const MAX_DEPTH := 4

  const SENSITIVE_KEYS: set<string> :=
    {"password", "token", "authorization", "secret", "otp", "ssn", "refreshtoken", "accesstoken"}

  // `Other` stands for numbers, booleans and all else that is neither string nor object.
  datatype Json =
    | Null | Undefined | Other(value: int) | Str(text: string) | Date(ms: int)
    | Arr(items: seq<Json>) | Obj(entries: seq<Entry>)
  datatype Entry = Entry(key: string, value: Json)

  // ---------- The sanitizer ----------

  function Truncated(n: nat): string {
    "[truncated:" + Decimal(n) + "]"
  }

  function StripSeparators(s: string): string {
    if s == [] then []
    else (if s[0] == '_' || s[0] == '-' then [] else [s[0]]) + StripSeparators(s[1..])
  }

  // `lower` is the platform's lower-casing of strings.
  predicate Sensitive(lower: string -> string, key: string) {
    StripSeparators(lower(key)) in SENSITIVE_KEYS
  }

  function SanitizeText(s: string): string {
    if |s| > MAX_STRING_LENGTH then s[..MAX_STRING_LENGTH] + "..." + Truncated(|s| - MAX_STRING_LENGTH) else s
  }

  // An array or an object, a date being an object without entries of its own.
  predicate Container(v: Json) {
    v.Arr? || v.Obj? || v.Date?
  }

  function Sanitized(lower: string -> string, v: Json, depth: nat): Json
    decreases MAX_DEPTH - depth
  {
    match v
    case Null => v
    case Undefined => v
    case Other(_) => v
    case Str(s) => Str(SanitizeText(s))
    case Arr(items) =>
      if depth >= MAX_DEPTH then Str("[depth-limited]")
      else
        Arr(SanitizedItems(lower, items, Min(|items|, MAX_ARRAY_LENGTH), depth)
            + if |items| > MAX_ARRAY_LENGTH then [Str(Truncated(|items| - MAX_ARRAY_LENGTH))] else [])
    case Date(_) => if depth >= MAX_DEPTH then Str("[depth-limited]") else Obj([])
    case Obj(entries) =>
      if depth >= MAX_DEPTH then Str("[depth-limited]")
      else Obj(SanitizedEntries(lower, entries, Min(|entries|, MAX_OBJECT_KEYS), depth))
  }

  function SanitizedItems(lower: string -> string, items: seq<Json>, n: nat, depth: nat): (r: seq<Json>)
    requires n <= |items| && depth < MAX_DEPTH
    ensures |r| == n && forall i :: 0 <= i < n ==> r[i] == Sanitized(lower, items[i], depth + 1)
    decreases MAX_DEPTH - depth, 0
  {
    seq(n, i requires 0 <= i < n => Sanitized(lower, items[i], depth + 1))
  }

  function SanitizedEntry(lower: string -> string, e: Entry, depth: nat): Entry
    requires depth < MAX_DEPTH
    decreases MAX_DEPTH - depth, 0
  {
    Entry(e.key, if Sensitive(lower, e.key) then Str("[REDACTED]") else Sanitized(lower, e.value, depth + 1))
  }

  function SanitizedEntries(lower: string -> string, entries: seq<Entry>, n: nat, depth: nat): (r: seq<Entry>)
    requires n <= |entries| && depth < MAX_DEPTH
    ensures |r| == n && forall i :: 0 <= i < n ==> r[i] == SanitizedEntry(lower, entries[i], depth)
    decreases MAX_DEPTH - depth, 1
  {
    seq(n, i requires 0 <= i < n => SanitizedEntry(lower, entries[i], depth))
  }

  // ---------- Size and nesting ----------

  function Arity(v: Json): nat {
    match v
    case Arr(items) => |items|
    case Obj(entries) => |entries|
    case _ => 0
  }

  function Child(v: Json, i: nat): (c: Json)
    requires i < Arity(v)
  {
    if v.Arr? then v.items[i] else v.entries[i].value
  }

  // How many containers lie inside one another.
  function Height(v: Json): nat
    decreases v, Arity(v) + 1
  {
    if Container(v) then 1 + HighestChild(v, Arity(v)) else 0
  }

  function HighestChild(v: Json, n: nat): nat
    requires n <= Arity(v)
    decreases v, n
  {
    if n == 0 then 0
    else
      var h, c := HighestChild(v, n - 1), Height(Child(v, n - 1));
      if h >= c then h else c
  }

  function Nodes(v: Json): nat
    decreases v, Arity(v) + 1
  {
    1 + NodesBelow(v, Arity(v))
  }

  function NodesBelow(v: Json, n: nat): nat
    requires n <= Arity(v)
    decreases v, n
  {
    if n == 0 then 0 else NodesBelow(v, n - 1) + Nodes(Child(v, n - 1))
  }

  lemma {:induction false} HighestChildAtMost(v: Json, n: nat, bound: nat)
    requires n <= Arity(v) && forall i :: 0 <= i < n ==> Height(Child(v, i)) <= bound
    ensures HighestChild(v, n) <= bound
  {
    if n > 0 {
      HighestChildAtMost(v, n - 1, bound);
    }
  }

  lemma {:induction false} NodesBelowAtMost(v: Json, n: nat, bound: nat)
    requires n <= Arity(v) && forall i :: 0 <= i < n ==> Nodes(Child(v, i)) <= bound
    ensures NodesBelow(v, n) <= n * bound
  {
    if n > 0 {
      NodesBelowAtMost(v, n - 1, bound);
      assert n * bound == (n - 1) * bound + bound;
    }
  }

  // 1, 1 + 30, 1 + 30 + 30², …
  function Bound(levels: nat): nat {
    if levels == 0 then 1 else 1 + MAX_OBJECT_KEYS * Bound(levels - 1)
  }

  lemma {:induction false} BoundAtLeastOne(levels: nat)
    ensures Bound(levels) >= 1
  {
    if levels > 0 {
      BoundAtLeastOne(levels - 1);
    }
  }

  lemma LeafIsSmall(v: Json, levels: nat)
    requires !Container(v)
    ensures Height(v) == 0 && Nodes(v) <= Bound(levels)
  {
    BoundAtLeastOne(levels);
    assert Arity(v) == 0 && NodesBelow(v, 0) == 0;
  }

  // The children of a sanitized container are sanitized payloads, `[REDACTED]` or a truncation marker.
  lemma ChildrenOfSanitized(lower: string -> string, v: Json, depth: nat, i: nat)
    requires Container(v) && depth < MAX_DEPTH && i < Arity(Sanitized(lower, v, depth))
    ensures var c := Child(Sanitized(lower, v, depth), i);
      c.Str? || (i < Arity(v) && c == Sanitized(lower, Child(v, i), depth + 1))
  {
  }

  lemma ArityOfSanitized(lower: string -> string, v: Json, depth: nat)
    ensures Arity(Sanitized(lower, v, depth)) <= MAX_OBJECT_KEYS
  {
  }

  lemma Times(a: nat, b: nat, c: nat)
    requires a <= b
    ensures a * c <= b * c
  {
  }

  lemma SmallFromChildren(r: Json, levels: nat)
    requires Container(r) && Arity(r) <= MAX_OBJECT_KEYS
    requires forall i :: 0 <= i < Arity(r) ==> Height(Child(r, i)) <= levels
    requires forall i :: 0 <= i < Arity(r) ==> Nodes(Child(r, i)) <= Bound(levels)
    ensures Height(r) <= levels + 1 && Nodes(r) <= Bound(levels + 1)
  {
    HighestChildAtMost(r, Arity(r), levels);
    NodesBelowAtMost(r, Arity(r), Bound(levels));
    Times(Arity(r), MAX_OBJECT_KEYS, Bound(levels));
  }

  lemma {:induction false} SanitizedIsSmall(lower: string -> string, v: Json, depth: nat)
    requires depth <= MAX_DEPTH
    ensures Height(Sanitized(lower, v, depth)) <= MAX_DEPTH - depth
    ensures Nodes(Sanitized(lower, v, depth)) <= Bound(MAX_DEPTH - depth)
    decreases MAX_DEPTH - depth, 1
  {
    var r := Sanitized(lower, v, depth);
    if Container(r) {
      var levels := MAX_DEPTH - depth - 1;
      ArityOfSanitized(lower, v, depth);
      forall i | 0 <= i < Arity(r) ensures Height(Child(r, i)) <= levels && Nodes(Child(r, i)) <= Bound(levels) {
        ChildIsSmall(lower, v, depth, i);
      }
      SmallFromChildren(r, levels);
    } else {
      LeafIsSmall(r, MAX_DEPTH - depth);
    }
  }

  lemma {:induction false} ChildIsSmall(lower: string -> string, v: Json, depth: nat, i: nat)
    requires depth < MAX_DEPTH && Container(Sanitized(lower, v, depth)) && i < Arity(Sanitized(lower, v, depth))
    ensures var c := Child(Sanitized(lower, v, depth), i);
      Height(c) <= MAX_DEPTH - depth - 1 && Nodes(c) <= Bound(MAX_DEPTH - depth - 1)
    decreases MAX_DEPTH - depth, 0
  {
    var c := Child(Sanitized(lower, v, depth), i);
    ChildrenOfSanitized(lower, v, depth, i);
    if c.Str? {
      LeafIsSmall(c, MAX_DEPTH - depth - 1);
    } else {
      SanitizedIsSmall(lower, Child(v, i), depth + 1);
    }
  }

  /** Whatever is logged nests at most four containers and has at most 1 + 30 + 30² + 30³ + 30⁴ nodes. */
  lemma LogIsSmall(lower: string -> string, v: Json)
    ensures Height(Sanitized(lower, v, 0)) <= 4
    ensures Nodes(Sanitized(lower, v, 0)) <= 1 + 30 + 30 * 30 + 30 * 30 * 30 + 30 * 30 * 30 * 30
  {
    SanitizedIsSmall(lower, v, 0);
    assert Bound(0) == 1 && Bound(1) == 31 && Bound(2) == 931 && Bound(3) == 27931 && Bound(4) == 837931;
  }

  // ---------- Secrets ----------

  lemma {:induction false} StripConcat(a: string, b: string)
    ensures StripSeparators(a + b) == StripSeparators(a) + StripSeparators(b)
  {
    if a == [] {
      assert a + b == b;
    } else {
      StripConcat(a[1..], b);
      var head: string := if a[0] == '_' || a[0] == '-' then [] else [a[0]];
      assert (a + b)[0] == a[0] && (a + b)[1..] == a[1..] + b;
      assert StripSeparators(a + b) == head + StripSeparators(a[1..] + b);
      assert head + (StripSeparators(a[1..]) + StripSeparators(b)) == head + StripSeparators(a[1..]) + StripSeparators(b);
    }
  }

  lemma {:induction false} NothingToStrip(s: string)
    requires forall i :: 0 <= i < |s| ==> s[i] != '_' && s[i] != '-'
    ensures StripSeparators(s) == s
  {
    if s != [] {
      NothingToStrip(s[1..]);
      assert s == [s[0]] + s[1..];
    }
  }

  lemma OneSeparator()
    ensures StripSeparators("_") == [] && StripSeparators("-") == []
  {
    assert "_"[1..] == [] && "-"[1..] == [];
  }

  lemma SeparatorDropped(a: string, separator: string, b: string)
    requires StripSeparators(separator) == []
    ensures StripSeparators(a + separator + b) == StripSeparators(a) + StripSeparators(b)
  {
    StripConcat(a + separator, b);
    StripConcat(a, separator);
  }

  /** Separators do not matter: wherever they stand, they are taken out, and nothing else is. */
  lemma SeparatorsDropped(a: string, b: string)
    ensures StripSeparators(a + "_" + b) == StripSeparators(a + "-" + b) == StripSeparators(a) + StripSeparators(b)
    ensures (forall i :: 0 <= i < |a| ==> a[i] != '_' && a[i] != '-') ==> StripSeparators(a) == a
  {
    OneSeparator();
    SeparatorDropped(a, "_", b);
    SeparatorDropped(a, "-", b);
    if forall i :: 0 <= i < |a| ==> a[i] != '_' && a[i] != '-' {
      NothingToStrip(a);
    }
  }

  /** A key is sensitive exactly if its lower-case form is one of these words, separators apart. */
  lemma SensitiveIff(lower: string -> string, key: string)
    ensures var words := ["password", "token", "authorization", "secret", "otp", "ssn", "refreshtoken", "accesstoken"];
      Sensitive(lower, key) <==> StripSeparators(lower(key)) in words
  {
  }

  predicate Redacted(lower: string -> string, v: Json) {
    match v
    case Arr(items) => forall i :: 0 <= i < |items| ==> Redacted(lower, items[i])
    case Obj(entries) =>
      forall i :: 0 <= i < |entries| ==>
        if Sensitive(lower, entries[i].key) then entries[i].value == Str("[REDACTED]") else Redacted(lower, entries[i].value)
    case _ => true
  }

  /** At every level, `[REDACTED]` stands under every sensitive key. */
  lemma {:induction false} SecretsAreRedacted(lower: string -> string, v: Json, depth: nat)
    ensures Redacted(lower, Sanitized(lower, v, depth))
    decreases MAX_DEPTH - depth, 1
  {
    if depth < MAX_DEPTH {
      match v
      case Arr(items) => ItemsAreRedacted(lower, items, depth);
      case Obj(entries) => EntriesAreRedacted(lower, entries, depth);
      case _ =>
    }
  }

  lemma {:induction false} ItemsAreRedacted(lower: string -> string, items: seq<Json>, depth: nat)
    requires depth < MAX_DEPTH
    ensures Redacted(lower, Sanitized(lower, Arr(items), depth))
    decreases MAX_DEPTH - depth, 0
  {
    var r := Sanitized(lower, Arr(items), depth).items;
    var n := Min(|items|, MAX_ARRAY_LENGTH);
    forall i | 0 <= i < |r| ensures Redacted(lower, r[i]) {
      if i < n {
        SecretsAreRedacted(lower, items[i], depth + 1);
      } else {
        assert r[i].Str?;
      }
    }
  }

  // What an object's entry has to be.
  predicate RedactedEntry(lower: string -> string, e: Entry) {
    if Sensitive(lower, e.key) then e.value == Str("[REDACTED]") else Redacted(lower, e.value)
  }

  lemma {:induction false} EntriesAreRedacted(lower: string -> string, entries: seq<Entry>, depth: nat)
    requires depth < MAX_DEPTH
    ensures Redacted(lower, Sanitized(lower, Obj(entries), depth))
    decreases MAX_DEPTH - depth, 0
  {
    var r := Sanitized(lower, Obj(entries), depth).entries;
    forall i | 0 <= i < |r| ensures RedactedEntry(lower, r[i]) {
      assert r[i] == SanitizedEntry(lower, entries[i], depth);
      if !Sensitive(lower, entries[i].key) {
        SecretsAreRedacted(lower, entries[i].value, depth + 1);
      }
    }
    assert forall i :: 0 <= i < |r| ==> RedactedEntry(lower, r[i]);
  }

  // Alike but for what stands under sensitive keys.
  predicate AlikeButSecrets(lower: string -> string, v: Json, w: Json) {
    match v
    case Arr(items) =>
      w.Arr? && |w.items| == |items| && forall i :: 0 <= i < |items| ==> AlikeButSecrets(lower, items[i], w.items[i])
    case Obj(entries) =>
      && w.Obj? && |w.entries| == |entries|
      && forall i :: 0 <= i < |entries| ==>
           && entries[i].key == w.entries[i].key
           && (Sensitive(lower, entries[i].key) || AlikeButSecrets(lower, entries[i].value, w.entries[i].value))
    case _ => v == w
  }

  /** The log does not depend on any secret: payloads alike but for their secrets are logged the same. */
  lemma {:induction false} LogDependsOnNoSecret(lower: string -> string, v: Json, w: Json, depth: nat)
    requires AlikeButSecrets(lower, v, w)
    ensures Sanitized(lower, v, depth) == Sanitized(lower, w, depth)
    decreases MAX_DEPTH - depth
  {
    if depth < MAX_DEPTH {
      match v
      case Arr(items) =>
        forall i | 0 <= i < |items| ensures Sanitized(lower, items[i], depth + 1) == Sanitized(lower, w.items[i], depth + 1) {
          LogDependsOnNoSecret(lower, items[i], w.items[i], depth + 1);
        }
        var n := Min(|items|, MAX_ARRAY_LENGTH);
        assert SanitizedItems(lower, items, n, depth) == SanitizedItems(lower, w.items, n, depth);
      case Obj(entries) =>
        var n := Min(|entries|, MAX_OBJECT_KEYS);
        forall i | 0 <= i < n ensures SanitizedEntry(lower, entries[i], depth) == SanitizedEntry(lower, w.entries[i], depth) {
          if !Sensitive(lower, entries[i].key) {
            LogDependsOnNoSecret(lower, entries[i].value, w.entries[i].value, depth + 1);
          }
        }
        assert SanitizedEntries(lower, entries, n, depth) == SanitizedEntries(lower, w.entries, n, depth);
      case _ =>
    }
  }

  // Within every limit, and without secrets.
  predicate Plain(lower: string -> string, v: Json, levels: nat) {
    match v
    case Str(s) => |s| <= 300
    case Arr(items) =>
      levels > 0 && |items| <= 20 && forall i :: 0 <= i < |items| ==> Plain(lower, items[i], levels - 1)
    case Obj(entries) =>
      && levels > 0 && |entries| <= 30
      && forall i :: 0 <= i < |entries| ==> !Sensitive(lower, entries[i].key) && Plain(lower, entries[i].value, levels - 1)
    case _ => true
  }

  // No date anywhere in the tree.
  predicate Dateless(v: Json) {
    match v
    case Arr(items) => forall i :: 0 <= i < |items| ==> Dateless(items[i])
    case Obj(entries) => forall i :: 0 <= i < |entries| ==> Dateless(entries[i].value)
    case Date(_) => false
    case _ => true
  }

  lemma ChildrenDateless(v: Json)
    requires !v.Date? && forall i :: 0 <= i < Arity(v) ==> Dateless(Child(v, i))
    ensures Dateless(v)
  {
    if v.Obj? {
      forall i | 0 <= i < |v.entries| ensures Dateless(v.entries[i].value) {
        assert Child(v, i) == v.entries[i].value;
      }
    } else if v.Arr? {
      forall i | 0 <= i < |v.items| ensures Dateless(v.items[i]) {
        assert Child(v, i) == v.items[i];
      }
    }
  }

  /** No date reaches the log. */
  lemma {:induction false} LogIsDateless(lower: string -> string, v: Json, depth: nat)
    ensures Dateless(Sanitized(lower, v, depth))
    decreases MAX_DEPTH - depth
  {
    var r := Sanitized(lower, v, depth);
    if depth < MAX_DEPTH && Container(v) {
      forall i | 0 <= i < Arity(r) ensures Dateless(Child(r, i)) {
        ChildrenOfSanitized(lower, v, depth, i);
        if i < Arity(v) {
          LogIsDateless(lower, Child(v, i), depth + 1);
        }
      }
      ChildrenDateless(r);
    }
  }

  /** A payload within the limits and without secrets and dates is logged as it is. */
  lemma {:induction false} PlainIsUnchanged(lower: string -> string, v: Json, depth: nat)
    requires depth <= 4 && Plain(lower, v, 4 - depth) && Dateless(v)
    ensures Sanitized(lower, v, depth) == v
    decreases MAX_DEPTH - depth
  {
    match v
    case Arr(items) =>
      forall i | 0 <= i < |items| ensures Sanitized(lower, items[i], depth + 1) == items[i] {
        PlainIsUnchanged(lower, items[i], depth + 1);
      }
      assert SanitizedItems(lower, items, |items|, depth) == items;
    case Obj(entries) =>
      forall i | 0 <= i < |entries| ensures SanitizedEntry(lower, entries[i], depth) == entries[i] {
        PlainIsUnchanged(lower, entries[i].value, depth + 1);
      }
      assert SanitizedEntries(lower, entries, |entries|, depth) == entries;
    case _ =>
  }

  /** Of such payloads exactly those without dates are logged as they are: a date is logged as an empty object. */
  lemma PlainUnchangedIff(lower: string -> string, v: Json)
    requires Plain(lower, v, 4)
    ensures Sanitized(lower, v, 0) == v <==> Dateless(v)
    ensures v.Date? ==> Sanitized(lower, v, 0) == Obj([])
  {
    LogIsDateless(lower, v, 0);
    if Dateless(v) {
      PlainIsUnchanged(lower, v, 0);
    }
  }

  /**
   What is too long or too deep is cut: texts at 300 characters, arrays at 20 items, objects
   at 30 keys, containers at the fourth level.
   */
  lemma TooMuchIsCut(lower: string -> string, v: Json, depth: nat)
    ensures v.Str? && |v.text| > 300 ==>
      Sanitized(lower, v, depth) == Str(v.text[..300] + "..." + "[truncated:" + Decimal(|v.text| - 300) + "]")
    ensures v.Arr? && |v.items| > 20 && depth < 4 ==>
      var r := Sanitized(lower, v, depth);
      && r.Arr? && |r.items| == 21 && r.items[20] == Str("[truncated:" + Decimal(|v.items| - 20) + "]")
      && forall i :: 0 <= i < 20 ==> r.items[i] == Sanitized(lower, v.items[i], depth + 1)
    ensures v.Obj? && |v.entries| > 30 && depth < 4 ==>
      var r := Sanitized(lower, v, depth);
      && r.Obj? && |r.entries| == 30
      && forall i :: 0 <= i < 30 ==> r.entries[i].key == v.entries[i].key
    ensures (v.Arr? || v.Obj? || v.Date?) && depth >= 4 ==> Sanitized(lower, v, depth) == Str("[depth-limited]")
  {
  }

  // ---------- As it runs ----------

  /** The recursion of the source, which fills the copy of an object key by key and ends because only four levels are entered. */
  method SanitizeForLog(lower: string -> string, value: Json, depth: nat) returns (r: Json)
    ensures r == Sanitized(lower, value, depth)
    decreases MAX_DEPTH - depth, 1
  {
    if Container(value) && depth >= MAX_DEPTH {
      return Str("[depth-limited]");
    }
    match value
    case Str(s) => r := Str(SanitizeText(s));
    case Arr(items) => r := SanitizeArray(lower, items, depth);
    case Obj(entries) => r := SanitizeObject(lower, entries, depth);
    case Date(_) => r := SanitizeObject(lower, [], depth);
    case _ => r := value;
  }

  method SanitizeArray(lower: string -> string, items: seq<Json>, depth: nat) returns (r: Json)
    requires depth < MAX_DEPTH
    ensures r == Sanitized(lower, Arr(items), depth)
    decreases MAX_DEPTH - depth, 0
  {
    var limited: seq<Json> := [];
    var n := Min(|items|, MAX_ARRAY_LENGTH);
    for i := 0 to n
      invariant |limited| == i
      invariant forall k :: 0 <= k < i ==> limited[k] == Sanitized(lower, items[k], depth + 1)
    {
      var item := SanitizeForLog(lower, items[i], depth + 1);
      limited := limited + [item];
    }
    assert limited == SanitizedItems(lower, items, n, depth);
    if |items| > MAX_ARRAY_LENGTH {
      limited := limited + [Str(Truncated(|items| - MAX_ARRAY_LENGTH))];
    }
    r := Arr(limited);
  }

  method SanitizeObject(lower: string -> string, entries: seq<Entry>, depth: nat) returns (r: Json)
    requires depth < MAX_DEPTH
    ensures r == Sanitized(lower, Obj(entries), depth)
    decreases MAX_DEPTH - depth, 0
  {
    var out: seq<Entry> := [];
    var n := Min(|entries|, MAX_OBJECT_KEYS);
    for i := 0 to n
      invariant |out| == i
      invariant forall k :: 0 <= k < i ==> out[k] == SanitizedEntry(lower, entries[k], depth)
    {
      var key, raw := entries[i].key, entries[i].value;
      if StripSeparators(lower(key)) in SENSITIVE_KEYS {
        out := out + [Entry(key, Str("[REDACTED]"))];
      } else {
        var copy := SanitizeForLog(lower, raw, depth + 1);
        out := out + [Entry(key, copy)];
      }
    }
    assert out == SanitizedEntries(lower, entries, n, depth);
    r := Obj(out);
  }
}
