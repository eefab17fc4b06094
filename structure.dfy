/**
 The `structure` class decorator: it keeps the public annotations of a class,
 resolves each of them to a ctypes storage type (a pointer to the structure
 itself for a self-reference, whatever cast_type returns otherwise), records
 self-references and casted wrapper types in `_ct_fields`, and installs
 `_pack_`, `_ct_fields` and `_fields_` on a freshly created structure type.
 */
module Structure {
  import opened Types

  // ---------------------------------------------------------------------------
  // Underscore filtering of the annotations
  // ---------------------------------------------------------------------------

  /** `name.startswith('_')`; the empty name does not start with '_'. */
  predicate IsPrivate(name: string) {
    |name| > 0 && name[0] == '_'
  }

  /** The annotations the decorator keeps: those whose name is not private. */
  function Public(annotations: seq<Entry>): (r: seq<Entry>)
    ensures |r| <= |annotations|
    ensures forall e :: e in r <==> e in annotations && !IsPrivate(e.0)
    decreases |annotations|
  {
    if annotations == [] then []
    else
      var n := |annotations| - 1;
      Public(annotations[..n]) + (if IsPrivate(annotations[n].0) then [] else [annotations[n]])
  }

  /** The positions of the non-private annotations, in increasing order. */
  function KeptIndices(annotations: seq<Entry>): (ks: seq<nat>)
    ensures forall j :: 0 <= j < |ks| ==> ks[j] < |annotations| && !IsPrivate(annotations[ks[j]].0)
    ensures forall j, k :: 0 <= j < k < |ks| ==> ks[j] < ks[k]
    ensures forall i :: 0 <= i < |annotations| && !IsPrivate(annotations[i].0) ==> i in ks
    decreases |annotations|
  {
    if annotations == [] then []
    else
      var n := |annotations| - 1;
      KeptIndices(annotations[..n]) + (if IsPrivate(annotations[n].0) then [] else [n])
  }

  /**
   The kept annotations are exactly the non-private ones, in their original
   relative order: entry j of the result is the annotation at the j-th
   non-private position.
   */
  lemma {:induction false} PublicKeepsOrder(annotations: seq<Entry>)
    ensures |Public(annotations)| == |KeptIndices(annotations)|
    ensures forall j :: 0 <= j < |Public(annotations)| ==>
              Public(annotations)[j] == annotations[KeptIndices(annotations)[j]]
    decreases |annotations|
  {
    if annotations != [] {
      var n := |annotations| - 1;
      var prefix := annotations[..n];
      PublicKeepsOrder(prefix);
      var ks := KeptIndices(annotations);
      forall j | 0 <= j < |Public(annotations)|
        ensures Public(annotations)[j] == annotations[ks[j]]
      {
        if j < |Public(prefix)| {
          assert Public(annotations)[j] == Public(prefix)[j];
          assert ks[j] == KeptIndices(prefix)[j];
          assert prefix[KeptIndices(prefix)[j]] == annotations[ks[j]];
        }
      }
    }
  }

  /** Filtering a dict's items keeps its names distinct. */
  lemma {:induction false} PublicNamesDistinct(annotations: seq<Entry>)
    requires NamesDistinct(annotations)
    ensures NamesDistinct(Public(annotations))
  {
    PublicKeepsOrder(annotations);
    var r, ks := Public(annotations), KeptIndices(annotations);
    forall i, j | 0 <= i < j < |r| ensures r[i].0 != r[j].0 {
      assert r[i] == annotations[ks[i]] && r[j] == annotations[ks[j]];
      assert ks[i] < ks[j];
    }
  }

  // ---------------------------------------------------------------------------
  // Field resolution
  // ---------------------------------------------------------------------------

  /**
   What the resolution loop works with besides the annotations: the class's
   name, the FuncInfo handed to cast_type, cast_type itself, and the test
   `issubclass(casted, CastedTypeBase)`.
   */
  datatype Env = Env(clsName: string, info: FuncInfo, cast: CastType, isCasted: CType -> bool)

  /** The two results of the loop: the `_fields_` list and the `_ct_fields` dict. */
  datatype Layout = Layout(fields: seq<Field>, ctFields: map<string, CType>)

  /** `attrhint == cls_name`: only a string hint can equal the class's name. */
  predicate IsSelfRef(hint: TypeHint, clsName: string) {
    hint == Str(clsName)
  }

  /** The field is handed to cast_type, and cast_type raises for it. */
  predicate CastFails(e: Entry, env: Env) {
    !IsSelfRef(e.1, env.clsName) && env.cast(env.info, e.0, e.1).Err?
  }

  /** The field belongs in `_ct_fields`: a self-reference, or a casted wrapper type. */
  predicate InCtFields(e: Entry, env: Env) {
    || IsSelfRef(e.1, env.clsName)
    || (var c := env.cast(env.info, e.0, e.1); c.Ok? && env.isCasted(c.value))
  }

  /** One iteration of the loop, on the layout built so far. */
  function Step(l: Layout, e: Entry, env: Env, self: CType): Result<Layout> {
    var (name, hint) := e;
    if IsSelfRef(hint, env.clsName) then
      Ok(Layout(l.fields + [(name, Pointer(self))], l.ctFields[name := self]))
    else
      match env.cast(env.info, name, hint)
      case Err(x) => Err(x)
      case Ok(casted) =>
        Ok(Layout(l.fields + [(name, casted)],
                  if env.isCasted(casted) then l.ctFields[name := casted] else l.ctFields))
  }

  /**
   The layout the loop builds for `annotations`, where `self` is the
   structure type under construction; the first exception stops it.
   */
  function Resolve(annotations: seq<Entry>, env: Env, self: CType): Result<Layout>
    decreases |annotations|
  {
    if annotations == [] then Ok(Layout([], map[]))
    else
      var n := |annotations| - 1;
      match Resolve(annotations[..n], env, self)
      case Err(x) => Err(x)
      case Ok(l) => Step(l, annotations[n], env, self)
  }

  /** The exception of the first field, in declaration order, for which cast_type raises. */
  function FirstFailure(annotations: seq<Entry>, env: Env): Option<Exception>
    decreases |annotations|
  {
    if annotations == [] then None
    else if CastFails(annotations[0], env) then
      Some(env.cast(env.info, annotations[0].0, annotations[0].1).error)
    else FirstFailure(annotations[1..], env)
  }

  /** An exception raised for a prefix is the exception of the whole loop. */
  lemma {:induction false} ResolveErrorPersists(annotations: seq<Entry>, k: nat, env: Env, self: CType)
    requires k <= |annotations|
    requires Resolve(annotations[..k], env, self).Err?
    ensures Resolve(annotations, env, self) == Resolve(annotations[..k], env, self)
    decreases |annotations| - k
  {
    if k < |annotations| {
      var n := |annotations| - 1;
      assert annotations[..n][..k] == annotations[..k];
      ResolveErrorPersists(annotations[..n], k, env, self);
    } else {
      assert annotations[..k] == annotations;
    }
  }

  /**
   Every field gets exactly one `_fields_` entry, in declaration order and
   under its own name; a self-reference gets a pointer to the structure, any
   other field exactly what cast_type returned for it.
   */
  lemma {:induction false} ResolveLayout(annotations: seq<Entry>, env: Env, self: CType)
    ensures Resolve(annotations, env, self).Ok? ==>
              var l := Resolve(annotations, env, self).value;
              && |l.fields| == |annotations|
              && forall i :: 0 <= i < |annotations| ==>
                   && l.fields[i].0 == annotations[i].0
                   && (IsSelfRef(annotations[i].1, env.clsName) ==> l.fields[i].1 == Pointer(self))
                   && (!IsSelfRef(annotations[i].1, env.clsName) ==>
                         env.cast(env.info, annotations[i].0, annotations[i].1) == Ok(l.fields[i].1))
    decreases |annotations|
  {
    if annotations != [] && Resolve(annotations, env, self).Ok? {
      var n := |annotations| - 1;
      var prefix := annotations[..n];
      ResolveLayout(prefix, env, self);
      var l := Resolve(annotations, env, self).value;
      var p := Resolve(prefix, env, self).value;
      assert l.fields == p.fields + [l.fields[n]];
      forall i | 0 <= i < n ensures l.fields[i] == p.fields[i] && annotations[i] == prefix[i] {
      }
    }
  }

  /**
   A name is a key of `_ct_fields` exactly when some field of that name is a
   self-reference or has a casted wrapper type; no other field is recorded.
   */
  lemma {:induction false} CtFieldsKeys(annotations: seq<Entry>, env: Env, self: CType)
    ensures Resolve(annotations, env, self).Ok? ==>
              forall k :: k in Resolve(annotations, env, self).value.ctFields <==>
                exists i :: 0 <= i < |annotations| && annotations[i].0 == k && InCtFields(annotations[i], env)
    decreases |annotations|
  {
    if annotations != [] && Resolve(annotations, env, self).Ok? {
      var n := |annotations| - 1;
      var prefix := annotations[..n];
      CtFieldsKeys(prefix, env, self);
      var l := Resolve(annotations, env, self).value;
      var p := Resolve(prefix, env, self).value;
      forall k ensures k in l.ctFields <==>
                 exists i :: 0 <= i < |annotations| && annotations[i].0 == k && InCtFields(annotations[i], env)
      {
        if k in l.ctFields {
          if k in p.ctFields {
            var i :| 0 <= i < |prefix| && prefix[i].0 == k && InCtFields(prefix[i], env);
            assert annotations[i] == prefix[i];
          } else {
            assert annotations[n].0 == k && InCtFields(annotations[n], env);
          }
        }
        if exists i :: 0 <= i < |annotations| && annotations[i].0 == k && InCtFields(annotations[i], env) {
          var i :| 0 <= i < |annotations| && annotations[i].0 == k && InCtFields(annotations[i], env);
          if i < n {
            assert prefix[i] == annotations[i];
            assert k in p.ctFields;
          }
        }
      }
    }
  }

  /**
   With distinct names, `_ct_fields` maps a self-reference to the structure
   type itself and a casted field to the very storage type in `_fields_`.
   */
  lemma {:induction false} CtFieldsValues(annotations: seq<Entry>, env: Env, self: CType)
    requires NamesDistinct(annotations)
    ensures Resolve(annotations, env, self).Ok? ==>
              var l := Resolve(annotations, env, self).value;
              forall i :: 0 <= i < |annotations| && InCtFields(annotations[i], env) ==>
                && i < |l.fields|
                && annotations[i].0 in l.ctFields
                && l.ctFields[annotations[i].0] ==
                     (if IsSelfRef(annotations[i].1, env.clsName) then self else l.fields[i].1)
    decreases |annotations|
  {
    if annotations != [] && Resolve(annotations, env, self).Ok? {
      var n := |annotations| - 1;
      var prefix := annotations[..n];
      assert NamesDistinct(prefix) by {
        forall i, j | 0 <= i < j < |prefix| ensures prefix[i].0 != prefix[j].0 {
          assert prefix[i] == annotations[i] && prefix[j] == annotations[j];
        }
      }
      CtFieldsValues(prefix, env, self);
      ResolveLayout(annotations, env, self);
      ResolveLayout(prefix, env, self);
      var l := Resolve(annotations, env, self).value;
      var p := Resolve(prefix, env, self).value;
      forall i | 0 <= i < |annotations| && InCtFields(annotations[i], env)
        ensures annotations[i].0 in l.ctFields
        ensures l.ctFields[annotations[i].0] ==
                  (if IsSelfRef(annotations[i].1, env.clsName) then self else l.fields[i].1)
      {
        if i < n {
          assert prefix[i] == annotations[i];
          assert annotations[i].0 != annotations[n].0;
          assert l.fields[i] == p.fields[i];
        }
      }
    }
  }

  /** FirstFailure of a list extended by one field. */
  lemma {:induction false} FirstFailureAppend(annotations: seq<Entry>, e: Entry, env: Env)
    ensures FirstFailure(annotations + [e], env) ==
              if FirstFailure(annotations, env).Some? then FirstFailure(annotations, env)
              else if CastFails(e, env) then Some(env.cast(env.info, e.0, e.1).error)
              else None
    decreases |annotations|
  {
    if annotations == [] {
      assert [e][1..] == [];
    } else {
      assert (annotations + [e])[0] == annotations[0];
      assert (annotations + [e])[1..] == annotations[1..] + [e];
      FirstFailureAppend(annotations[1..], e, env);
    }
  }

  /**
   FirstFailure is the exception of the first field that cast_type rejects:
   None exactly when cast_type accepts every field handed to it.
   */
  lemma {:induction false} FirstFailureIsFirst(annotations: seq<Entry>, env: Env)
    ensures FirstFailure(annotations, env).None? <==>
              forall i :: 0 <= i < |annotations| ==> !CastFails(annotations[i], env)
    ensures FirstFailure(annotations, env).Some? ==>
              exists i :: 0 <= i < |annotations| && CastFails(annotations[i], env)
                && env.cast(env.info, annotations[i].0, annotations[i].1).error == FirstFailure(annotations, env).value
                && forall j :: 0 <= j < i ==> !CastFails(annotations[j], env)
    decreases |annotations|
  {
    if annotations != [] {
      var rest := annotations[1..];
      FirstFailureIsFirst(rest, env);
      forall i | 1 <= i < |annotations| ensures annotations[i] == rest[i - 1] { }
      if !CastFails(annotations[0], env) && FirstFailure(rest, env).Some? {
        var i :| 0 <= i < |rest| && CastFails(rest[i], env)
          && env.cast(env.info, rest[i].0, rest[i].1).error == FirstFailure(rest, env).value
          && forall j :: 0 <= j < i ==> !CastFails(rest[j], env);
        assert annotations[i + 1] == rest[i];
        forall j | 0 <= j < i + 1 ensures !CastFails(annotations[j], env) {
          if j > 0 { assert annotations[j] == rest[j - 1]; }
        }
      }
    }
  }

  /**
   The loop raises exactly when some field's cast_type call raises, and then
   with the exception of the first such field; `self` plays no part in it.
   */
  lemma {:induction false} ResolveFailure(annotations: seq<Entry>, env: Env, self: CType)
    ensures Resolve(annotations, env, self).Err? <==> FirstFailure(annotations, env).Some?
    ensures Resolve(annotations, env, self).Err? ==>
              Resolve(annotations, env, self).error == FirstFailure(annotations, env).value
    decreases |annotations|
  {
    if annotations != [] {
      var n := |annotations| - 1;
      var prefix := annotations[..n];
      ResolveFailure(prefix, env, self);
      assert annotations == prefix + [annotations[n]];
      FirstFailureAppend(prefix, annotations[n], env);
    }
  }

  /**
   cast_type is never consulted for a self-referential field: replacing it by
   any function that agrees on the other fields leaves the result unchanged.
   */
  lemma {:induction false} SelfRefsSkipCast(annotations: seq<Entry>, env: Env, cast': CastType, self: CType)
    requires forall i :: 0 <= i < |annotations| && !IsSelfRef(annotations[i].1, env.clsName) ==>
               cast'(env.info, annotations[i].0, annotations[i].1) ==
               env.cast(env.info, annotations[i].0, annotations[i].1)
    ensures Resolve(annotations, env, self) == Resolve(annotations, env.(cast := cast'), self)
    decreases |annotations|
  {
    if annotations != [] {
      var n := |annotations| - 1;
      var prefix := annotations[..n];
      forall i | 0 <= i < |prefix| ensures prefix[i] == annotations[i] { }
      SelfRefsSkipCast(prefix, env, cast', self);
    }
  }

  /**
   The loop of lines 64-79: walks the annotations once, appending to `fields`
   and inserting into `ct_fields`; an exception from cast_type ends it.
   */
  method ResolveFields(annotations: seq<Entry>, env: Env, self: CType) returns (r: Result<Layout>)
    ensures r == Resolve(annotations, env, self)
  {
    var ctFields: map<string, CType> := map[];
    var fields: seq<Field> := [];
    var i := 0;
    while i < |annotations|
      invariant 0 <= i <= |annotations|
      invariant Resolve(annotations[..i], env, self) == Ok(Layout(fields, ctFields))
    {
      var (name, hint) := annotations[i];
      assert annotations[..i + 1][..i] == annotations[..i];
      var casted: CType;
      if hint == Str(env.clsName) {
        casted := Pointer(self);
        ctFields := ctFields[name := self];
      } else {
        var c := env.cast(env.info, name, hint);
        if c.Err? {
          ResolveErrorPersists(annotations, i + 1, env, self);
          return Err(c.error);
        }
        casted := c.value;
        if env.isCasted(casted) {
          ctFields := ctFields[name := casted];
        }
      }
      fields := fields + [(name, casted)];
      i := i + 1;
    }
    assert annotations[..i] == annotations;
    r := Ok(Layout(fields, ctFields));
  }

  // ---------------------------------------------------------------------------
  // The decorator
  // ---------------------------------------------------------------------------

  /**
   The keyword arguments of `structure(...)` other than `scope`. Only `pack`
   is read here; the others are handed to the scope mechanism, whose merge
   into the flattened `Options` is not part of this model.
   */
  datatype Params = Params(
    pack: Option<int>,
    strType: Option<CType>,
    intBits: Option<int>,
    intSign: Option<bool>)

  /** What the decorator leaves on the structure type: its name and the three attributes. */
  datatype Descriptor = Descriptor(
    name: string,
    pack: Option<int>,
    ctFields: map<string, CType>,
    fields: seq<Field>)

  /** Python truthiness of an `Optional[int]`: None and 0 are false. */
  predicate Truthy(pack: Option<int>) {
    pack.Some? && pack.value != 0
  }

  /** The FuncInfo of lines 57-59, over the public annotations and the flattened scope. */
  function InfoFor(cls: ClassDecl, options: Options): FuncInfo {
    FuncInfo(cls.name, None, Public(cls.annotations), options)
  }

  function EnvFor(cls: ClassDecl, options: Options, cast: CastType, isCasted: CType -> bool): Env {
    Env(cls.name, InfoFor(cls, options), cast, isCasted)
  }

  /** The attributes the decorator installs, where `self` is the new structure type. */
  function Build(params: Params, options: Options, cls: ClassDecl, cast: CastType,
                 isCasted: CType -> bool, self: CType): Result<Descriptor>
  {
    match Resolve(Public(cls.annotations), EnvFor(cls, options, cast, isCasted), self)
    case Err(x) => Err(x)
    case Ok(l) => Ok(Descriptor(cls.name, if Truthy(params.pack) then params.pack else None,
                                l.ctFields, l.fields))
  }

  /**
   The structure type carries the class's name; `_pack_` is the `pack`
   argument when that is truthy and unset when it is None or 0.
   */
  lemma BuildNameAndPack(params: Params, options: Options, cls: ClassDecl, cast: CastType,
                         isCasted: CType -> bool, self: CType)
    ensures Build(params, options, cls, cast, isCasted, self).Ok? ==>
              var d := Build(params, options, cls, cast, isCasted, self).value;
              && d.name == cls.name
              && (params.pack == None || params.pack == Some(0) ==> d.pack == None)
              && (params.pack.Some? && params.pack.value != 0 ==> d.pack == params.pack)
  {
  }

  /** `pack` changes `_pack_` only: the outcome, `_fields_` and `_ct_fields` do not depend on it. */
  lemma PackOnlyAffectsAlignment(params: Params, pack': Option<int>, options: Options, cls: ClassDecl,
                                 cast: CastType, isCasted: CType -> bool, self: CType)
    ensures var d1 := Build(params, options, cls, cast, isCasted, self);
            var d2 := Build(params.(pack := pack'), options, cls, cast, isCasted, self);
            && d1.Ok? == d2.Ok?
            && (d1.Err? ==> d1.error == d2.error)
            && (d1.Ok? ==> d1.value.name == d2.value.name && d1.value.fields == d2.value.fields
                           && d1.value.ctFields == d2.value.ctFields)
  {
  }

  /**
   End to end: `_fields_` has one entry per public annotation, in order, under
   its name; none are duplicated; every `_ct_fields` key is a `_fields_` name.
   */
  lemma {:induction false} BuildFields(params: Params, options: Options, cls: ClassDecl, cast: CastType,
                                       isCasted: CType -> bool, self: CType)
    requires NamesDistinct(cls.annotations)
    ensures Build(params, options, cls, cast, isCasted, self).Ok? ==>
              var d := Build(params, options, cls, cast, isCasted, self).value;
              var ks := KeptIndices(cls.annotations);
              && |d.fields| == |ks|
              && (forall j :: 0 <= j < |ks| ==> d.fields[j].0 == cls.annotations[ks[j]].0)
              && NamesDistinct(d.fields)
              && (forall k :: k in d.ctFields ==> exists j :: 0 <= j < |d.fields| && d.fields[j].0 == k)
  {
    var env := EnvFor(cls, options, cast, isCasted);
    var public := Public(cls.annotations);
    if Build(params, options, cls, cast, isCasted, self).Ok? {
      var d := Build(params, options, cls, cast, isCasted, self).value;
      PublicKeepsOrder(cls.annotations);
      PublicNamesDistinct(cls.annotations);
      ResolveLayout(public, env, self);
      CtFieldsKeys(public, env, self);
      assert NamesDistinct(d.fields) by {
        forall i, j | 0 <= i < j < |d.fields| ensures d.fields[i].0 != d.fields[j].0 {
          assert d.fields[i].0 == public[i].0 && d.fields[j].0 == public[j].0;
        }
      }
      forall k | k in d.ctFields ensures exists j :: 0 <= j < |d.fields| && d.fields[j].0 == k {
        var i :| 0 <= i < |public| && public[i].0 == k && InCtFields(public[i], env);
        assert d.fields[i].0 == k;
      }
    }
  }

  /**
   The inner `wrapper` of lines 47-89: creates the structure type, resolves its
   fields, then sets `_pack_` (only for a truthy `pack`), `_ct_fields` and
   `_fields_`. `options` is the flattened configuration of the active scope.
   On an exception from cast_type nothing is returned but that exception.
   */
  method Wrap(params: Params, options: Options, cls: ClassDecl, cast: CastType,
              isCasted: CType -> bool) returns (r: Result<StructType>)
    ensures r.Ok? ==> fresh(r.value) && r.value.base == cls
    ensures r.Ok? ==> Build(params, options, cls, cast, isCasted, Struct(r.value)) ==
                      Ok(Descriptor(r.value.name, r.value.pack, r.value.ctFields, r.value.fields))
    ensures r.Err? <==> FirstFailure(Public(cls.annotations), EnvFor(cls, options, cast, isCasted)).Some?
    ensures r.Err? ==> r.error == FirstFailure(Public(cls.annotations), EnvFor(cls, options, cast, isCasted)).value
  {
    var annotations := Public(cls.annotations);
    var env := EnvFor(cls, options, cast, isCasted);
    var structType := new StructType(cls);
    var resolved := ResolveFields(annotations, env, Struct(structType));
    ResolveFailure(annotations, env, Struct(structType));
    if resolved.Err? {
      return Err(resolved.error);
    }
    if Truthy(params.pack) {
      structType.pack := params.pack;
    }
    structType.ctFields := resolved.value.ctFields;
    structType.fields := resolved.value.fields;
    r := Ok(structType);
  }
}
