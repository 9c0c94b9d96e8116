/**
 Comparison of a stored object with a desired one when the API hides secrets behind
 `$encrypted$`, and the update step built on it.
 */
module Secrets {
  import opened Json

  // ---------------------------------------------------------------- looking for secrets

  datatype Step = Key(key: string) | Index(index: nat)

  /** The value found by walking `path` down from `v`. */
  function At(v: Value, path: seq<Step>): Option<Value> {
    if path == [] then Some(v)
    else match (v, path[0])
      case (Dict(fields), Key(k)) => if k in fields then At(fields[k], path[1..]) else None
      case (List(items), Index(i)) => if i < |items| then At(items[i], path[1..]) else None
      case _ => None
  }

  /** The controller collection's search for `$encrypted$`. */
  predicate HasEncrypted(v: Value) {
    match v
    case Dict(fields) => exists k | k in fields :: HasEncrypted(fields[k])
    case List(items) => exists i | 0 <= i < |items| :: HasEncrypted(items[i])
    case _ => v == ENCRYPTED
  }

  /** The gateway collection's version of the same search, which has no case for a scalar. */
  predicate GatewayHasEncrypted(v: Value) {
    match v
    case Dict(fields) => exists k | k in fields :: GatewayHasEncrypted(fields[k])
    case List(items) => exists i | 0 <= i < |items| :: GatewayHasEncrypted(items[i])
    case _ => false
  }

  lemma {:induction false} FoundAtSomePath(v: Value) returns (path: seq<Step>)
    requires HasEncrypted(v)
    ensures At(v, path) == Some(ENCRYPTED)
  {
    match v {
      case Dict(fields) =>
        var k :| k in fields && HasEncrypted(fields[k]);
        var rest := FoundAtSomePath(fields[k]);
        path := [Key(k)] + rest;
      case List(items) =>
        var i :| 0 <= i < |items| && HasEncrypted(items[i]);
        var rest := FoundAtSomePath(items[i]);
        path := [Index(i)] + rest;
      case _ =>
        path := [];
    }
  }

  lemma {:induction false} PathIsFound(v: Value, path: seq<Step>)
    requires At(v, path) == Some(ENCRYPTED)
    ensures HasEncrypted(v)
    decreases |path|
  {
    if path != [] {
      match (v, path[0]) {
        case (Dict(fields), Key(k)) => PathIsFound(fields[k], path[1..]);
        case (List(items), Index(i)) => PathIsFound(items[i], path[1..]);
      }
    }
  }

  /** The controller search is exact: it answers yes when some path leads to `$encrypted$`. */
  lemma HasEncryptedIsExact(v: Value)
    ensures HasEncrypted(v) <==> exists path :: At(v, path) == Some(Str("$encrypted$"))
  {
    if HasEncrypted(v) {
      var path := FoundAtSomePath(v);
    }
    forall path | At(v, path) == Some(ENCRYPTED) ensures HasEncrypted(v) {
      PathIsFound(v, path);
    }
  }

  /** The gateway search answers no on every value, the bare secret included. */
  lemma {:induction false} GatewaySearchIsBlind(v: Value)
    ensures !GatewayHasEncrypted(v)
  {
    match v {
      case Dict(fields) =>
        forall k | k in fields ensures !GatewayHasEncrypted(fields[k]) {
          GatewaySearchIsBlind(fields[k]);
        }
      case List(items) =>
        forall i | 0 <= i < |items| ensures !GatewayHasEncrypted(items[i]) {
          GatewaySearchIsBlind(items[i]);
        }
      case _ =>
    }
  }

  /** So the two searches agree exactly on the values that hide nothing. */
  lemma SearchesAgreeIffNothingHidden(v: Value)
    ensures GatewayHasEncrypted(v) == HasEncrypted(v) <==> forall path :: At(v, path) != Some(ENCRYPTED)
  {
    GatewaySearchIsBlind(v);
    HasEncryptedIsExact(v);
  }

  // ---------------------------------------------------------------- comparing one field

  /** `$encrypted$` in the old value is a wild card; lists are compared as they stand. */
  predicate CouldBeSame(old': Value, new': Value) {
    if old'.Dict? && new'.Dict? then
      old'.fields.Keys == new'.fields.Keys &&
      forall k | k in new'.fields :: CouldBeSame(old'.fields[k], new'.fields[k])
    else
      old' == ENCRYPTED || new' == old'
  }

  /** A guess of the secret that stands at each dictionary path. */
  type Guess = seq<string> -> Value

  /** `v` with every `$encrypted$` that dictionaries alone lead to replaced by the guess. */
  function Fill(v: Value, at: seq<string>, guess: Guess): Value {
    if v.Dict? then Dict(map k | k in v.fields :: Fill(v.fields[k], at + [k], guess))
    else if v == ENCRYPTED then guess(at)
    else v
  }

  /** The value at a dictionary path, Null where the path leads nowhere. */
  function Under(v: Value, path: seq<string>): Value {
    if path == [] then v
    else if v.Dict? && path[0] in v.fields then Under(v.fields[path[0]], path[1..])
    else Null
  }

  lemma {:induction false} UnderExtends(v: Value, path: seq<string>, k: string)
    requires Under(v, path).Dict? && k in Under(v, path).fields
    ensures Under(v, path + [k]) == Under(v, path).fields[k]
    decreases |path|
  {
    if path == [] {
      assert (path + [k])[1..] == [];
    } else {
      assert (path + [k])[1..] == path[1..] + [k];
      UnderExtends(v.fields[path[0]], path[1..], k);
    }
  }

  lemma {:induction false} FilledFromNew(old': Value, top: Value, at: seq<string>)
    requires CouldBeSame(old', Under(top, at))
    ensures Fill(old', at, (p: seq<string>) => Under(top, p)) == Under(top, at)
    decreases old'
  {
    if old'.Dict? && Under(top, at).Dict? {
      forall k | k in old'.fields
        ensures Fill(old'.fields[k], at + [k], (p: seq<string>) => Under(top, p)) == Under(top, at).fields[k]
      {
        UnderExtends(top, at, k);
        FilledFromNew(old'.fields[k], top, at + [k]);
      }
    }
  }

  lemma {:induction false} FilledCouldBeSame(old': Value, at: seq<string>, guess: Guess)
    ensures CouldBeSame(old', Fill(old', at, guess))
    decreases old'
  {
    if old'.Dict? {
      forall k | k in old'.fields ensures CouldBeSame(old'.fields[k], Fill(old'.fields[k], at + [k], guess)) {
        FilledCouldBeSame(old'.fields[k], at + [k], guess);
      }
    }
  }

  /**
   The comparison means what it promises: the fields could be the same exactly when some
   values for the hidden leaves turn the old one into the new one.
   */
  lemma CouldBeSameIffCompletable(old': Value, new': Value)
    ensures CouldBeSame(old', new') <==> exists guess: Guess :: Fill(old', [], guess) == new'
  {
    if CouldBeSame(old', new') {
      FilledFromNew(old', new', []);
      var guess: Guess := (p: seq<string>) => Under(new', p);
      assert Fill(old', [], guess) == new';
    }
    forall guess: Guess | Fill(old', [], guess) == new' ensures CouldBeSame(old', new') {
      FilledCouldBeSame(old', [], guess);
    }
  }

  lemma {:induction false} CouldBeSameReflexive(v: Value)
    ensures CouldBeSame(v, v)
  {
    if v.Dict? {
      forall k | k in v.fields ensures CouldBeSame(v.fields[k], v.fields[k]) {
        CouldBeSameReflexive(v.fields[k]);
      }
    }
  }

  // ---------------------------------------------------------------- comparing two objects

  const UNCOMPARED: set<string> := {"modified", "related", "summary_fields"}

  /** Why one field makes the controller collection call two objects different. */
  predicate FieldDiffers(updateSecrets: bool, old': Fields, new': Fields, field: string) {
    && (Get(old', field) != Get(new', field) || HasEncrypted(Get(new', field)) || field !in new')
    && (updateSecrets || !CouldBeSame(Get(old', field), Get(new', field)))
  }

  /** The same for the gateway collection. */
  predicate GatewayFieldDiffers(updateSecrets: bool, old': Fields, new': Fields, field: string) {
    && Get(old', field) != Get(new', field)
    && (updateSecrets || !CouldBeSame(Get(old', field), Get(new', field)))
  }

  predicate Different(updateSecrets: bool, old': Fields, new': Fields, fields: set<string>) {
    exists field | field in fields :: FieldDiffers(updateSecrets, old', new', field)
  }

  predicate GatewayDifferent(updateSecrets: bool, old': Fields, new': Fields, fields: set<string>) {
    exists field | field in fields :: GatewayFieldDiffers(updateSecrets, old', new', field)
  }

  /** The controller loop; the fields are visited in no particular order. */
  method ObjectsCouldBeDifferent(updateSecrets: bool, old': Fields, new': Fields, fields: set<string>)
    returns (different: bool)
    ensures different == Different(updateSecrets, old', new', fields)
  {
    var rest := fields;
    while rest != {}
      invariant rest <= fields
      invariant forall field | field in fields - rest :: !FieldDiffers(updateSecrets, old', new', field)
    {
      var field :| field in rest;
      rest := rest - {field};
      var newField, oldField := Get(new', field), Get(old', field);
      if oldField != newField {
        if updateSecrets || !CouldBeSame(oldField, newField) {
          return true;
        }
      } else if HasEncrypted(newField) || field !in new' {
        if updateSecrets || !CouldBeSame(oldField, newField) {
          return true;
        }
      }
    }
    return false;
  }

  /** The gateway loop, with its own order of tests and its own search for secrets. */
  method GatewayObjectsCouldBeDifferent(updateSecrets: bool, old': Fields, new': Fields, fields: set<string>)
    returns (different: bool)
    ensures different == GatewayDifferent(updateSecrets, old', new', fields)
  {
    var rest := fields;
    while rest != {}
      invariant rest <= fields
      invariant forall field | field in fields - rest :: !GatewayFieldDiffers(updateSecrets, old', new', field)
    {
      var field :| field in rest;
      rest := rest - {field};
      var newField, oldField := Get(new', field), Get(old', field);
      if oldField != newField {
        if GatewayHasEncrypted(newField) || field !in new' {
          if updateSecrets || !CouldBeSame(oldField, newField) {
            return true;
          }
        } else if updateSecrets || !CouldBeSame(oldField, newField) {
          return true;
        }
      }
    }
    return false;
  }

  /**
   The two collections decide alike unless `update_secrets` is on and they differ on one
   kind of object: nothing differs by value, and some field equal on both sides hides a
   secret or is missing from the new object.
   */
  lemma CollectionsAgree(updateSecrets: bool, old': Fields, new': Fields, fields: set<string>)
    ensures GatewayDifferent(updateSecrets, old', new', fields) ==> Different(updateSecrets, old', new', fields)
    ensures GatewayDifferent(updateSecrets, old', new', fields) == Different(updateSecrets, old', new', fields) <==>
            || !updateSecrets
            || (exists field | field in fields :: Get(old', field) != Get(new', field))
            || (forall field | field in fields :: field in new' && !HasEncrypted(new'[field]))
  {
    if !updateSecrets {
      forall field | field in fields
        ensures FieldDiffers(false, old', new', field) == GatewayFieldDiffers(false, old', new', field)
      {
        CouldBeSameReflexive(Get(old', field));
      }
    }
    assert forall field | field in fields ::
        GatewayFieldDiffers(updateSecrets, old', new', field) ==> FieldDiffers(updateSecrets, old', new', field);
    if updateSecrets {
      assert forall field | field in fields ::
          GatewayFieldDiffers(true, old', new', field) <==> Get(old', field) != Get(new', field);
      assert forall field | field in fields && Get(old', field) == Get(new', field) ::
          FieldDiffers(true, old', new', field) <==> (field !in new' || HasEncrypted(new'[field]));
    }
  }
}
