/**
 The values the structure decorator works on: Python type hints, the ctypes
 types it produces, the structure type object it creates and fills in, and the
 abstractions of the collaborators it calls (cast_type and its FuncInfo).
 */
module Types {

  datatype Option<T> = None | Some(value: T)

  /** An exception raised by a collaborator; it reaches the caller unchanged. */
  datatype Exception = Exception(kind: string, message: string)

  /** A value, or the exception that aborted the computation. */
  datatype Result<T> = Ok(value: T) | Err(error: Exception)

  /**
   A type hint as it appears in a class's `__annotations__`: either a string
   (a forward reference such as 'MyStruct') or a type object such as `int`.
   A type object is never equal to a string in Python, whatever its name.
   */
  datatype TypeHint = Str(text: string) | TypeObject(qualname: string)

  /**
   A ctypes type: a structure type created by the decorator, a pointer type
   built by ctypes.POINTER, or any other type cast_type may return (fixed-width
   integers, string buffers, the casted wrapper types of ctyped.types).
   */
  datatype CType =
    | Struct(s: StructType)
    | Pointer(target: CType)
    | Native(tag: string)

  /** One `_fields_` entry: a field name and its storage type. */
  type Field = (string, CType)

  /** One entry of `__annotations__`: a field name and its type hint. */
  type Entry = (string, TypeHint)

  /** A decorated Python class: its `__name__` and its ordered `__annotations__`. */
  datatype ClassDecl = ClassDecl(name: string, annotations: seq<Entry>)

  /** The flattened configuration of the active scope (pack, strings, ints). */
  datatype Options = Options(
    pack: Option<int>,
    strType: Option<CType>,
    intBits: Option<int>,
    intSign: Option<bool>)

  /** What cast_type is told about the structure being defined. */
  datatype FuncInfo = FuncInfo(
    namePy: string,
    nameC: Option<string>,
    annotations: seq<Entry>,
    options: Options)

  /** The signature of cast_type(info, attrname, attrhint). */
  type CastType = (FuncInfo, string, TypeHint) -> Result<CType>

  /** No two entries of `entries` carry the same name, as in a Python dict. */
  predicate NamesDistinct<V>(entries: seq<(string, V)>) {
    forall i, j :: 0 <= i < j < |entries| ==> entries[i].0 != entries[j].0
  }

  /**
   The structure type object that `type(cls_name, (CStruct, cls_), {})`
   creates. The decorator then sets `_pack_` (when asked), `_ct_fields` and
   `_fields_` on it. `pack == None` means `_pack_` was never set.
   */
  class StructType {
    const name: string
    const base: ClassDecl
    var pack: Option<int>
    var ctFields: map<string, CType>
    var fields: seq<Field>

    constructor (cls: ClassDecl)
      ensures name == cls.name && base == cls
      ensures pack == None && ctFields == map[] && fields == []
    {
      name := cls.name;
      base := cls;
      pack := None;
      ctFields := map[];
      fields := [];
    }
  }
}
