# ctyped `structure` decorator — field resolution model

`ctyped` lets a Python class with annotated fields stand for a C structure.
The `structure(...)` class decorator (`ctyped/structure.py`) takes the class's
ordered `__annotations__` and does four things:

- it drops every annotation whose name starts with `_`;
- it gives each remaining field a ctypes storage type: a field whose hint is
  the string naming the class itself (a self-reference) becomes
  `POINTER(struct)`, and any other field gets whatever `cast_type` returns for it;
- it records in `_ct_fields` the self-references (mapped to the structure type
  itself) and the fields whose storage type is a casted wrapper type (a
  subclass of `CastedTypeBase`);
- it sets `_pack_` on the new structure type when `pack` is truthy, and then sets
  `_ct_fields` and `_fields_`.

This project models that pass in Dafny and proves what it guarantees.

- `types.dfy` (module `Types`) holds the values involved. Type hints are a
  string or a type object. ctypes types are a structure type, a pointer, or an
  opaque native type. The structure type object is the class `StructType`,
  whose `pack`, `ctFields` and `fields` the decorator assigns. The module also
  holds the `FuncInfo` handed to `cast_type` and a `Result` for exceptions.
- `structure.dfy` (module `Structure`) holds the decorator.
  - `Public` is the underscore filter.
  - `Resolve` is a recursive specification of the resolution loop.
  - `ResolveFields` is the loop itself, as a method proved equal to `Resolve`.
  - `Wrap` is the inner `wrapper`: it creates the structure type, runs the loop
    and assigns the attributes. It is proved against the pure function `Build`.
  - The lemmas state the properties of `Public`, `Resolve` and `Build`.

The collaborators are parameters. `cast_type(info, attrname, attrhint)` is a
total function `CastType` that either returns a ctypes type or raises an
`Exception`. `issubclass(casted, CastedTypeBase)` is a predicate `isCasted`.
The flattened configuration of the active scope (`scope.flatten()`) is an
`Options` value passed in by the caller.

A Python dict has distinct keys and keeps insertion order. The annotations are
therefore a `seq` of name/hint pairs. The lemmas that rely on distinct keys
require `NamesDistinct`.

An exception raised by `cast_type` passes through the decorator unchanged: the
code neither catches it nor adds the field name to it (`ResolveFailure`,
`FirstFailureIsFirst`).

## Model

| member | source | states |
|---|---|---|
| `Structure.Public` | ctyped/structure.py:49-51 | an entry is kept exactly when it is an annotation whose name does not start with `_`; never more entries than the input |
| `Structure.KeptIndices` | ctyped/structure.py:49-51 | the positions of the non-private annotations: strictly increasing, in range, and containing every non-private position |
| `Structure.PublicKeepsOrder` | ctyped/structure.py:49-51 | the j-th kept annotation is the annotation at the j-th non-private position, so relative order is preserved |
| `Structure.PublicNamesDistinct` | ctyped/structure.py:49-51 | filtering a dict's items keeps the names distinct |
| `Structure.ResolveFields` | ctyped/structure.py:64-79 | the loop over the annotations returns exactly the layout (or the exception) that the specification `Resolve` gives |
| `Structure.ResolveErrorPersists` | ctyped/structure.py:67-79 | once cast_type raises for some field, that exception is the outcome of the whole loop |
| `Structure.ResolveLayout` | ctyped/structure.py:67-79 | `_fields_` has one entry per annotation, in order, with the same name; a self-reference gets `POINTER(struct)`; any other field gets exactly cast_type's result |
| `Structure.CtFieldsKeys` | ctyped/structure.py:64-77 | a name is a `_ct_fields` key exactly when a field of that name is a self-reference or has a casted wrapper type |
| `Structure.CtFieldsValues` | ctyped/structure.py:69-79 | with distinct names, a self-reference maps to the structure type itself and a casted field maps to the storage type recorded in `_fields_` |
| `Structure.FirstFailureAppend` | ctyped/structure.py:67-74 | the first failing cast of a list extended by one field is the earlier failure if there is one, else that field's failure |
| `Structure.FirstFailureIsFirst` | ctyped/structure.py:67-74 | there is no failure exactly when cast_type accepts every non-self-referential field; otherwise the failure is the exception of the first field it rejects |
| `Structure.ResolveFailure` | ctyped/structure.py:67-74 | the loop raises exactly when some cast_type call raises, and then with the first such exception, independent of the structure type |
| `Structure.SelfRefsSkipCast` | ctyped/structure.py:69-74 | cast_type is never consulted for a self-referential field: exchanging it for any function that agrees on the other fields changes nothing |
| `Structure.BuildNameAndPack` | ctyped/structure.py:55-84 | the result carries the class's name; `_pack_` equals `pack` when that is a non-zero int and is unset for None and 0 |
| `Structure.PackOnlyAffectsAlignment` | ctyped/structure.py:83-87 | changing `pack` changes neither whether the build succeeds, nor its exception, nor `_fields_`, `_ct_fields` or the name |
| `Structure.BuildFields` | ctyped/structure.py:49-87 | `_fields_` has one entry per public annotation, in order, with no duplicate names, and every `_ct_fields` key is a `_fields_` name |
| `Structure.Wrap` | ctyped/structure.py:47-89 | returns a fresh structure type derived from the class whose name and three attributes are exactly `Build`'s result; raises exactly when some cast fails, with the first exception |
| `Types.StructType.constructor` | ctyped/structure.py:62 | the new structure type has the class's name and base and no attributes set yet |

## Left out

- `Scopes`, `scope(**params)` and `scope.flatten()` are not part of this model. They live in `ctyped/library.py`. The flattened options are an input, and the merge of explicit over ambient settings is not modelled.
- `cast_type` and `FuncInfo` live in `ctyped/utils.py` and are not part of this model. `cast_type` is an arbitrary function parameter, so no int or str mapping rule is modelled.
- ctypes itself is opaque. `type(...)` is a constructor, `ctypes.POINTER` is the `Pointer` constructor, and memory layout, offsets and the validation ctypes performs when `_fields_` is assigned are not modelled.
- `issubclass` is modelled only for types that `cast_type` returns. The predicate is never applied to `POINTER(struct)`, as in the code.
- The debug log line (line 81) is logging only.
- Byte order is marked as a todo in the code (line 61) and is not modelled.
- Thread safety is not modelled. The model is sequential code with no shared state.
- The decorator's own outer call (`structure(...)`, lines 12-45) is modelled only by its arguments (`Params`). Creating the default `Scopes` when `scope` is None belongs to the scope mechanism left out above.
- Structure.BuildNameAndPack: a negative `pack` is truthy, so line 84 sets `_pack_` to it, and ctypes then rejects it when `_fields_` is assigned at line 87; the model keeps that `pack` because the ctypes validation is not modelled.
- Structure.Wrap: for a negative `pack` it returns `Ok`, whereas the decorator raises when ctypes rejects `_pack_` at line 87; so "raises exactly when some cast fails" leaves out that ctypes error.
- The insertion order of the `_ct_fields` dict (lines 64, 71, 77) is not kept: it is a `map` in the model. Nothing in the decorator iterates over it.
