/** The icosahedral esf_descriptor of include/stencil-composition/icosahedral_grids/esf.hpp:
    a functor, a grid, a location type and an argument sequence, accepted only
    when every argument is a placeholder and the grid is a grid topology. */
module IcoEsf {

  import opened Wrappers
  import opened Accessors

  /** The kinds of C++ types that can be handed over as template arguments. */
  datatype ArgType = PlaceholderArg(id: nat) | NonPlaceholder

  datatype GridType = GridTopology(id: nat) | NonGrid

  datatype EsfDescriptor = EsfDescriptor(esfFunction: nat, grid: GridType, locationType: LocationType, args: seq<ArgType>)

  datatype EsfError = WrongParameterTypes | WrongGridType

  predicate IsSequenceOfArgs(args: seq<ArgType>)
  {
    forall i :: 0 <= i < |args| ==> args[i].PlaceholderArg?
  }

  /** The static assertions of esf_descriptor that fail for these template arguments. */
  function FailedAssertions(grid: GridType, args: seq<ArgType>): set<EsfError>
  {
    (if IsSequenceOfArgs(args) then {} else {WrongParameterTypes}) +
    (if grid.GridTopology? then {} else {WrongGridType})
  }

  /** Instantiating esf_descriptor: both static assertions are checked, and every one
      that fails is reported. */
  function MakeEsfDescriptor(functor: nat, grid: GridType, location: LocationType, args: seq<ArgType>): (r: Result<EsfDescriptor, set<EsfError>>)
    ensures r.Success? <==> IsSequenceOfArgs(args) && grid.GridTopology?
    ensures r.Failure? ==> (WrongParameterTypes in r.error <==> !IsSequenceOfArgs(args))
    ensures r.Failure? ==> (WrongGridType in r.error <==> !grid.GridTopology?)
    ensures r.Success? ==> r.value.esfFunction == functor && r.value.grid == grid &&
                           r.value.locationType == location && r.value.args == args
  {
    var failed := FailedAssertions(grid, args);
    if failed == {} then Success(EsfDescriptor(functor, grid, location, args))
    else Failure(failed)
  }

  /** The types is_esf_descriptor is asked about: an esf_descriptor instantiation, or anything else. */
  datatype TypeArg = EsfType(descriptor: EsfDescriptor) | OtherType

  /** is_esf_descriptor: true of every esf_descriptor instantiation, false otherwise. */
  predicate IsEsfDescriptor(t: TypeArg)
  {
    t.EsfType?
  }

  lemma MadeDescriptorIsEsfDescriptor(functor: nat, grid: GridType, location: LocationType, args: seq<ArgType>)
    ensures var r := MakeEsfDescriptor(functor, grid, location, args);
            r.Success? ==> IsEsfDescriptor(EsfType(r.value)) && !IsEsfDescriptor(OtherType)
  {
  }

  /** esf_get_location_type: the LocationType the descriptor was built with. */
  function EsfGetLocationType(d: EsfDescriptor): LocationType
  {
    d.locationType
  }

  lemma GetLocationTypeIsConstructionArgument(functor: nat, grid: GridType, location: LocationType, args: seq<ArgType>)
    requires MakeEsfDescriptor(functor, grid, location, args).Success?
    ensures EsfGetLocationType(MakeEsfDescriptor(functor, grid, location, args).value) == location
  {
  }
}
