/** include/stencil-composition/expandable_parameters/specializations.hpp: the trait
    specialisations that let a std::vector of storage pointers stand wherever a single
    storage may. Types are values of a small universe; each trait's primary template,
    defined elsewhere, is a parameter. */
module Specializations {
  import opened Wrappers

  datatype StorageInfo = StorageInfo(indexType: nat)

  /** The C++ types the traits are applied to. */
  datatype CppType =
    | Arg(id: nat, storage: CppType)         // arg<ID, T>
    | Vector(elem: CppType)                  // std::vector<T>
    | Pointer(pointee: CppType)              // pointer<T>
    | Storage(info: StorageInfo, isTemporary: bool)
    | Other(name: nat)

  /** vector<pointer<T>>, the shape of an expandable parameter. */
  predicate IsVectorOfPointers(t: CppType)
  {
    t.Vector? && t.elem.Pointer?
  }

  /** Strips nested vector<pointer<...>> layers down to the innermost element. */
  function Unwrap(t: CppType): (u: CppType)
    ensures !IsVectorOfPointers(u)
    ensures !IsVectorOfPointers(t) ==> u == t
    ensures IsVectorOfPointers(t) ==> u == Unwrap(t.elem.pointee)
  {
    if IsVectorOfPointers(t) then Unwrap(t.elem.pointee) else t
  }

  /** arg2storage: the storage type an arg refers to. */
  function Arg2Storage(t: CppType, primary: CppType -> CppType): (s: CppType)
    ensures t.Arg? && IsVectorOfPointers(t.storage) ==> s == t.storage.elem.pointee
    ensures !(t.Arg? && IsVectorOfPointers(t.storage)) ==> s == primary(t)
  {
    if t.Arg? && IsVectorOfPointers(t.storage) then t.storage.elem.pointee else primary(t)
  }

  /** An expandable arg maps to its element storage type, whatever its id. */
  lemma Arg2StorageOfVector(id: nat, elem: CppType, primary: CppType -> CppType)
    ensures Arg2Storage(Arg(id, Vector(Pointer(elem))), primary) == elem
  {
  }

  /** T::value_type for a pointer<T> is T; other types have no value_type. */
  function ValueType(t: CppType): (r: Option<CppType>)
    ensures r.Some? <==> t.Pointer?
    ensures r.Some? ==> r.value == t.pointee
  {
    if t.Pointer? then Some(t.pointee) else None
  }

  /** get_location_type of vector<T>: T::value_type::storage_info_type::index_type. None
      means the nested type does not exist and the instantiation does not compile. */
  function GetLocationType(t: CppType, primary: CppType -> Option<nat>): Option<nat>
  {
    if t.Vector? then
      match ValueType(t.elem)
      case Some(s) => if s.Storage? then Some(s.info.indexType) else None
      case None => None
    else primary(t)
  }

  /** The specialisation's cases: a vector of pointers to a storage has the storage
      info's index type; any other vector has no location type; other types are left
      to the primary template. */
  lemma GetLocationTypeOfVector(elem: CppType, primary: CppType -> Option<nat>)
    ensures elem.Pointer? && elem.pointee.Storage? ==>
              GetLocationType(Vector(elem), primary) == Some(elem.pointee.info.indexType)
    ensures !(elem.Pointer? && elem.pointee.Storage?) ==> GetLocationType(Vector(elem), primary).None?
    ensures forall t: CppType :: !t.Vector? ==> GetLocationType(t, primary) == primary(t)
  {
  }

  /** insert_if_not_present<Sequence, vector<pointer<Arg>>> inherits from the one for
      Arg, which may itself be a vector of pointers. */
  function InsertIfNotPresent(s: seq<CppType>, t: CppType, primary: (seq<CppType>, CppType) -> seq<CppType>): (r: seq<CppType>)
    ensures !IsVectorOfPointers(t) ==> r == primary(s, t)
    ensures IsVectorOfPointers(t) ==> r == InsertIfNotPresent(s, t.elem.pointee, primary)
  {
    if IsVectorOfPointers(t) then InsertIfNotPresent(s, t.elem.pointee, primary) else primary(s, t)
  }

  /** Inserting a vector of pointers inserts the innermost element. */
  lemma {:induction false} InsertUnwrapsVectors(s: seq<CppType>, t: CppType, primary: (seq<CppType>, CppType) -> seq<CppType>)
    ensures InsertIfNotPresent(s, t, primary) == primary(s, Unwrap(t))
  {
    if IsVectorOfPointers(t) {
      InsertUnwrapsVectors(s, t.elem.pointee, primary);
    }
  }

  /** storage_holds_data_field. */
  function StorageHoldsDataField(t: CppType, primary: CppType -> bool): bool
  {
    if IsVectorOfPointers(t) then true else primary(t)
  }

  /** A vector of pointers holds a data field whatever the primary template says. */
  lemma StorageHoldsDataFieldOfVector(elem: CppType, primary: CppType -> bool)
    ensures StorageHoldsDataField(Vector(Pointer(elem)), primary)
    ensures forall t: CppType :: !IsVectorOfPointers(t) ==> StorageHoldsDataField(t, primary) == primary(t)
  {
  }

  /** T::is_temporary, present on storage types only. */
  function IsTemporary(t: CppType): (r: Option<bool>)
    ensures r.Some? <==> t.Storage?
    ensures r.Some? ==> r.value == t.isTemporary
  {
    if t.Storage? then Some(t.isTemporary) else None
  }

  /** is_actual_storage<pointer<vector<pointer<T>>>> is !T::is_temporary. */
  function IsActualStorage(t: CppType, primary: CppType -> Option<bool>): (r: Option<bool>)
    ensures t.Pointer? && IsVectorOfPointers(t.pointee) ==>
              r == (match IsTemporary(t.pointee.elem.pointee) case Some(tmp) => Some(!tmp) case None => None)
    ensures !(t.Pointer? && IsVectorOfPointers(t.pointee)) ==> r == primary(t)
  {
    if t.Pointer? && IsVectorOfPointers(t.pointee) then
      match IsTemporary(t.pointee.elem.pointee)
      case Some(tmp) => Some(!tmp)
      case None => None
    else primary(t)
  }

  /** A pointer to an expandable parameter is an actual storage exactly when its
      element storage is not temporary. */
  lemma ActualStorageIffNotTemporary(info: StorageInfo, isTemporary: bool, primary: CppType -> Option<bool>)
    ensures IsActualStorage(Pointer(Vector(Pointer(Storage(info, isTemporary)))), primary) == Some(true) <==> !isTemporary
    ensures IsActualStorage(Pointer(Vector(Pointer(Storage(info, isTemporary)))), primary).Some?
  {
  }

  /** is_storage<vector<pointer<S>>> inherits from is_storage<S>. */
  function IsStorage(t: CppType, primary: CppType -> bool): (b: bool)
    ensures IsVectorOfPointers(t) ==> b == IsStorage(t.elem.pointee, primary)
    ensures !IsVectorOfPointers(t) ==> b == primary(t)
  {
    if IsVectorOfPointers(t) then IsStorage(t.elem.pointee, primary) else primary(t)
  }

  /** A vector, however deeply nested, is a storage exactly when its innermost element is. */
  lemma {:induction false} IsStorageOfInnermost(t: CppType, primary: CppType -> bool)
    ensures IsStorage(t, primary) == primary(Unwrap(t))
  {
    if IsVectorOfPointers(t) {
      IsStorageOfInnermost(t.elem.pointee, primary);
    }
  }
}
