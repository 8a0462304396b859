/** Log redaction (src/common/logging/redact.ts): whatever sits under a sensitive key, at any
    depth of a JSON tree, becomes one fixed string; everything else stays. */
module Redact {
  import opened Wrappers

  datatype Json =
    | Null
    | Bool(b: bool)
    | Num(n: real)
    | Str(s: string)
    | Arr(items: seq<Json>)
    | Obj(fields: seq<(string, Json)>)

  const REDACTED := Str("[REDACTED]")

  const SENSITIVE_KEY_FRAGMENTS: seq<string> := [
    "authorization",
    "cookie",
    "paystack",
    "supabase",
    "secret",
    "token",
    "password",
    "signature",
    "account_number",
    "accountNumber",
    "bank_account"
  ]

  // ---------------------------------------------------------------- sensitive keys

  function LowerChar(c: char): char {
    if 'A' <= c <= 'Z' then c - 'A' + 'a' else c
  }

  function Lower(s: string): (r: string)
    ensures |r| == |s| && forall i :: 0 <= i < |s| ==> r[i] == LowerChar(s[i])
  {
    seq(|s|, i requires 0 <= i < |s| => LowerChar(s[i]))
  }

  predicate OccursAt(s: string, fragment: string, i: nat) {
    i + |fragment| <= |s| && s[i..i + |fragment|] == fragment
  }

  predicate Includes(s: string, fragment: string) {
    exists i :: 0 <= i <= |s| && OccursAt(s, fragment, i)
  }

  predicate IsSensitive(key: string) {
    exists f :: f in SENSITIVE_KEY_FRAGMENTS && Includes(Lower(key), Lower(f))
  }

  lemma IncludedInLonger(s: string, fragment: string, before: string, after: string)
    requires Includes(s, fragment)
    ensures Includes(before + s + after, fragment)
  {
    var i :| 0 <= i <= |s| && OccursAt(s, fragment, i);
    assert (before + s + after)[|before| + i..|before| + i + |fragment|] == fragment;
    assert OccursAt(before + s + after, fragment, |before| + i);
  }

  /** Nothing written around a sensitive key, and no change of case, makes it harmless. */
  lemma SensitiveInAnyDisguise(key: string, before: string, after: string, written: string)
    requires IsSensitive(key) && Lower(written) == Lower(key)
    ensures IsSensitive(before + written + after)
  {
    var f :| f in SENSITIVE_KEY_FRAGMENTS && Includes(Lower(key), Lower(f));
    assert Lower(before + written + after) == Lower(before) + Lower(written) + Lower(after);
    IncludedInLonger(Lower(key), Lower(f), Lower(before), Lower(after));
  }

  /** Every fragment is caught as a key of its own, whatever its case in the list. */
  lemma FragmentsAreSensitive(f: string)
    requires f in SENSITIVE_KEY_FRAGMENTS
    ensures IsSensitive(f)
  {
    assert OccursAt(Lower(f), Lower(f), 0);
  }

  // ---------------------------------------------------------------- sensitive keys, letter by letter

  /** The same character, or the same ASCII letter in the other case. */
  predicate SameLetter(a: char, b: char) {
    || a == b
    || ('A' <= a <= 'Z' && b as int == a as int + 32)
    || ('A' <= b <= 'Z' && a as int == b as int + 32)
  }

  predicate Spells(written: string, fragment: string) {
    |written| == |fragment| && forall i :: 0 <= i < |written| ==> SameLetter(written[i], fragment[i])
  }

  /** What a key must spell somewhere to be sensitive. */
  predicate NamesASecret(s: string) {
    || Spells(s, "authorization") || Spells(s, "cookie") || Spells(s, "paystack") || Spells(s, "supabase")
    || Spells(s, "secret") || Spells(s, "token") || Spells(s, "password") || Spells(s, "signature")
    || Spells(s, "account_number") || Spells(s, "accountNumber") || Spells(s, "bank_account")
  }

  lemma LowerSpells(a: string, b: string)
    ensures Lower(a) == Lower(b) <==> Spells(a, b)
  {
    if Lower(a) == Lower(b) {
      forall i | 0 <= i < |a| ensures SameLetter(a[i], b[i]) {
        assert Lower(a)[i] == Lower(b)[i];
      }
    }
  }

  lemma LowerOfPart(key: string, i: nat, n: nat)
    requires i + n <= |key|
    ensures Lower(key)[i..i + n] == Lower(key[i..i + n])
  {}

  lemma FragmentsByName(s: string)
    ensures NamesASecret(s) <==> exists k :: 0 <= k < |SENSITIVE_KEY_FRAGMENTS| && Spells(s, SENSITIVE_KEY_FRAGMENTS[k])
  {
    var F := SENSITIVE_KEY_FRAGMENTS;
    assert F[0] == "authorization" && F[1] == "cookie" && F[2] == "paystack" && F[3] == "supabase";
    assert F[4] == "secret" && F[5] == "token" && F[6] == "password" && F[7] == "signature";
    assert F[8] == "account_number" && F[9] == "accountNumber" && F[10] == "bank_account" && |F| == 11;
  }

  lemma OccurrenceSpells(key: string, fragment: string, i: nat)
    ensures OccursAt(Lower(key), Lower(fragment), i) <==>
      i + |fragment| <= |key| && Spells(key[i..i + |fragment|], fragment)
  {
    if i + |fragment| <= |key| {
      LowerOfPart(key, i, |fragment|);
      LowerSpells(key[i..i + |fragment|], fragment);
    }
  }

  /** A key is sensitive if and only if some part of it spells one of the names, in whatever
      mixture of upper and lower case. */
  lemma SensitiveKeysSpellASecret(key: string)
    ensures IsSensitive(key) <==> exists i, j :: 0 <= i <= j <= |key| && NamesASecret(key[i..j])
  {
    if IsSensitive(key) {
      var f :| f in SENSITIVE_KEY_FRAGMENTS && Includes(Lower(key), Lower(f));
      var i :| 0 <= i <= |Lower(key)| && OccursAt(Lower(key), Lower(f), i);
      OccurrenceSpells(key, f, i);
      var k :| 0 <= k < |SENSITIVE_KEY_FRAGMENTS| && SENSITIVE_KEY_FRAGMENTS[k] == f;
      FragmentsByName(key[i..i + |f|]);
      assert NamesASecret(key[i..i + |f|]);
    }
    if i, j :| 0 <= i <= j <= |key| && NamesASecret(key[i..j]) {
      FragmentsByName(key[i..j]);
      var k :| 0 <= k < |SENSITIVE_KEY_FRAGMENTS| && Spells(key[i..j], SENSITIVE_KEY_FRAGMENTS[k]);
      var f := SENSITIVE_KEY_FRAGMENTS[k];
      assert key[i..i + |f|] == key[i..j];
      OccurrenceSpells(key, f, i);
      assert Includes(Lower(key), Lower(f));
      assert f in SENSITIVE_KEY_FRAGMENTS;
    }
  }

  /** So a name hidden in a longer key, in any case, is caught. */
  lemma SecretInsideAKey(before: string, written: string, after: string)
    requires NamesASecret(written)
    ensures IsSensitive(before + written + after)
  {
    var key := before + written + after;
    assert key[|before|..|before| + |written|] == written;
    SensitiveKeysSpellASecret(key);
  }

  // ---------------------------------------------------------------- redaction

  function RedactValue(key: string, value: Json): Json
    decreases value, 1
  {
    if IsSensitive(key) then REDACTED else RedactUnknown(value)
  }

  /** The case of an object is what the source calls redacting a record. */
  function RedactUnknown(value: Json): Json
    decreases value, 0
  {
    match value
    case Arr(items) => Arr(seq(|items|, i requires 0 <= i < |items| => RedactUnknown(items[i])))
    case Obj(fields) => Obj(seq(|fields|, i requires 0 <= i < |fields| =>
      (fields[i].0, RedactValue(fields[i].0, fields[i].1))))
    case _ => value
  }

  // ---------------------------------------------------------------- what is lost, and what is not

  /** Two trees that differ, if at all, only in what they hold under sensitive keys. */
  ghost predicate AgreeOutsideSecrets(a: Json, b: Json) {
    match (a, b)
    case (Arr(xs), Arr(ys)) =>
      |xs| == |ys| && forall i :: 0 <= i < |xs| ==> AgreeOutsideSecrets(xs[i], ys[i])
    case (Obj(fs), Obj(gs)) =>
      && |fs| == |gs|
      && (forall i :: 0 <= i < |fs| ==> fs[i].0 == gs[i].0)
      && (forall i :: 0 <= i < |fs| && !IsSensitive(fs[i].0) ==> AgreeOutsideSecrets(fs[i].1, gs[i].1))
    case _ => a == b
  }

  /** Redaction forgets exactly the secrets: two trees have the same redaction if and only if
      they agree everywhere outside sensitive keys. */
  lemma {:induction false} RedactionForgetsExactlyTheSecrets(a: Json, b: Json)
    ensures RedactUnknown(a) == RedactUnknown(b) <==> AgreeOutsideSecrets(a, b)
  {
    if a.Arr? && b.Arr? && |a.items| == |b.items| {
      forall i | 0 <= i < |a.items|
        ensures RedactUnknown(a).items[i] == RedactUnknown(b).items[i] <==> AgreeOutsideSecrets(a.items[i], b.items[i])
      {
        RedactionForgetsExactlyTheSecrets(a.items[i], b.items[i]);
      }
    } else if a.Obj? && b.Obj? && |a.fields| == |b.fields| {
      forall i | 0 <= i < |a.fields|
        ensures RedactUnknown(a).fields[i] == RedactUnknown(b).fields[i] <==>
          a.fields[i].0 == b.fields[i].0
            && (IsSensitive(a.fields[i].0) || AgreeOutsideSecrets(a.fields[i].1, b.fields[i].1))
      {
        RedactionForgetsExactlyTheSecrets(a.fields[i].1, b.fields[i].1);
      }
    }
  }

  lemma {:induction false} RedactionAgrees(v: Json)
    ensures AgreeOutsideSecrets(v, RedactUnknown(v))
  {
    match v
    case Arr(items) =>
      forall i | 0 <= i < |items| ensures AgreeOutsideSecrets(items[i], RedactUnknown(v).items[i]) {
        RedactionAgrees(items[i]);
      }
    case Obj(fields) =>
      forall i | 0 <= i < |fields| && !IsSensitive(fields[i].0)
        ensures AgreeOutsideSecrets(fields[i].1, RedactUnknown(v).fields[i].1)
      {
        RedactionAgrees(fields[i].1);
      }
    case _ =>
  }

  /** Redacting twice is redacting once, under a key or not. */
  lemma RedactionIsIdempotent(key: string, v: Json)
    ensures RedactUnknown(RedactUnknown(v)) == RedactUnknown(v)
    ensures RedactValue(key, RedactValue(key, v)) == RedactValue(key, v)
  {
    RedactionAgrees(v);
    RedactionForgetsExactlyTheSecrets(v, RedactUnknown(v));
  }

  // ---------------------------------------------------------------- along every path

  /** The part of a tree that a path of positions leads to. */
  function At(v: Json, path: seq<nat>): Option<Json> {
    if path == [] then Some(v)
    else
      match v
      case Arr(items) => if path[0] < |items| then At(items[path[0]], path[1..]) else None
      case Obj(fields) => if path[0] < |fields| then At(fields[path[0]].1, path[1..]) else None
      case _ => None
  }

  /** The keys the path goes through. */
  function KeysAlong(v: Json, path: seq<nat>): seq<string> {
    if path == [] then []
    else
      match v
      case Arr(items) => if path[0] < |items| then KeysAlong(items[path[0]], path[1..]) else []
      case Obj(fields) => if path[0] < |fields| then [fields[path[0]].0] + KeysAlong(fields[path[0]].1, path[1..])
        else []
      case _ => []
  }

  ghost predicate NoneSensitive(keys: seq<string>) {
    forall i :: 0 <= i < |keys| ==> !IsSensitive(keys[i])
  }

  /** The same leaf, an array of the same length, or an object with the same keys. */
  ghost predicate SameSurface(a: Json, b: Json) {
    match (a, b)
    case (Arr(xs), Arr(ys)) => |xs| == |ys|
    case (Obj(fs), Obj(gs)) => |fs| == |gs| && forall i :: 0 <= i < |fs| ==> fs[i].0 == gs[i].0
    case _ => a == b
  }

  /** A path through harmless keys leads, before and after, to nothing or to the same leaf, an
      array of the same length or an object with the same keys; and whatever the redacted tree
      has at the end of a path through a sensitive key is the one fixed string. */
  lemma {:induction false} RedactionAlongAPath(v: Json, path: seq<nat>)
    ensures var was, now, keys := At(v, path), At(RedactUnknown(v), path), KeysAlong(v, path);
      && (NoneSensitive(keys) ==> (was.Some? <==> now.Some?))
      && (NoneSensitive(keys) && was.Some? ==>
           now.value == RedactUnknown(was.value) && SameSurface(was.value, now.value))
      && (!NoneSensitive(keys) && now.Some? ==> now.value == REDACTED && KeysAlong(RedactUnknown(v), path) == keys)
    decreases |path|
  {
    if path != [] {
      var i, rest := path[0], path[1..];
      match v
      case Arr(items) =>
        if i < |items| {
          RedactionAlongAPath(items[i], rest);
        }
      case Obj(fields) =>
        if i < |fields| {
          RedactionAlongAPath(fields[i].1, rest);
          KeysOfAField(fields[i].0, KeysAlong(fields[i].1, rest));
        }
      case _ =>
    }
  }

  lemma KeysOfAField(key: string, rest: seq<string>)
    ensures NoneSensitive([key] + rest) <==> !IsSensitive(key) && NoneSensitive(rest)
  {
    assert forall i :: 1 <= i < |[key] + rest| ==> ([key] + rest)[i] == rest[i - 1];
    assert ([key] + rest)[0] == key;
    if NoneSensitive([key] + rest) {
      forall i | 0 <= i < |rest| ensures !IsSensitive(rest[i]) {
        assert ([key] + rest)[i + 1] == rest[i];
      }
    }
  }

  /** So no redacted tree holds anything but that string anywhere under a sensitive key. */
  lemma {:induction false} NothingSurvivesUnderASensitiveKey(v: Json, path: seq<nat>)
    requires At(RedactUnknown(v), path).Some? && !NoneSensitive(KeysAlong(RedactUnknown(v), path))
    ensures At(RedactUnknown(v), path).value == REDACTED
  {
    RedactionIsIdempotent("", v);
    RedactionAlongAPath(RedactUnknown(v), path);
  }

  /** Under a sensitive key every value becomes the marker, under any other its redaction. */
  lemma TheMarker(key: string, value: Json)
    ensures RedactValue(key, value) ==
      if exists i, j :: 0 <= i <= j <= |key| && NamesASecret(key[i..j]) then Str("[REDACTED]") else RedactUnknown(value)
  {
    SensitiveKeysSpellASecret(key);
  }
}
