/** Colour dispatch of run_esf_functor_host
    (include/gridtools/stencil-composition/icosahedral_grids/backend_host/run_esf_functor_host.hpp):
    an ESF runs at a colour when it has that colour or no colour; running it calls
    the user functor, specialised to the colour, repeat_t times through the
    iterate domain. */
module ColorDispatch {

  import opened Wrappers
  import opened Levels

  datatype Color = NoColor | Color(value: nat)

  /** What the dispatcher knows of an ESF: its functor, colour, repeat count and reduction flag. */
  datatype EsfArguments = EsfArguments(functorId: nat, color: Color, repeat: nat, isReduction: bool)

  /** color_esf_match: the run colour is the ESF's, or the ESF is colour-less. */
  predicate ColorEsfMatch(runColor: nat, e: EsfArguments)
  {
    e.color == Color(runColor) || e.color == NoColor
  }

  /** One call of a user Do method: the functor specialised to a colour, on an interval. */
  datatype UserCall = UserCall(functorId: nat, color: nat, interval: Interval)

  datatype DispatchError = ReductionsNotSupported

  function Repeat(c: UserCall, n: nat): (r: seq<UserCall>)
    ensures |r| == n && forall i :: 0 <= i < n ==> r[i] == c
  {
    if n == 0 then [] else Repeat(c, n - 1) + [c]
  }

  /** The calls do_impl makes, as written: the reduction overload of call_user_functor has an
      empty body and a static assertion on is_reduction_t that holds in that overload, so a
      reduction compiles and calls nothing. */
  function PlannedCallsAsWritten(runColor: nat, e: EsfArguments, iv: Interval): (r: seq<UserCall>)
    ensures !ColorEsfMatch(runColor, e) || e.isReduction ==> r == []
    ensures ColorEsfMatch(runColor, e) && !e.isReduction ==>
              |r| == e.repeat && forall i :: 0 <= i < |r| ==> r[i] == UserCall(e.functorId, runColor, iv)
  {
    if !ColorEsfMatch(runColor, e) || e.isReduction then []
    else Repeat(UserCall(e.functorId, runColor, iv), e.repeat)
  }

  /** The intended dispatch: reductions are rejected ("not supported at the moment"). */
  function PlannedCalls(runColor: nat, e: EsfArguments, iv: Interval): (r: Result<seq<UserCall>, DispatchError>)
    ensures !ColorEsfMatch(runColor, e) ==> r == Success([])
    ensures ColorEsfMatch(runColor, e) && e.isReduction ==> r == Failure(ReductionsNotSupported)
    ensures ColorEsfMatch(runColor, e) && !e.isReduction ==>
              r.Success? && |r.value| == e.repeat &&
              forall i :: 0 <= i < |r.value| ==> r.value[i] == UserCall(e.functorId, runColor, iv)
  {
    if !ColorEsfMatch(runColor, e) then Success([])
    else if e.isReduction then Failure(ReductionsNotSupported)
    else Success(Repeat(UserCall(e.functorId, runColor, iv), e.repeat))
  }

  /** Off reductions the code as written does what is intended. */
  lemma AsWrittenMatchesIntendedOffReductions(runColor: nat, e: EsfArguments, iv: Interval)
    requires !e.isReduction
    ensures PlannedCalls(runColor, e, iv) == Success(PlannedCallsAsWritten(runColor, e, iv))
  {
  }

  /** A matching reduction: silently skipped as written, rejected as intended. */
  lemma ReductionIgnoredAsWritten(iv: Interval)
    ensures var e := EsfArguments(1, NoColor, 1, true);
            PlannedCallsAsWritten(0, e, iv) == [] && PlannedCalls(0, e, iv).Failure?
  {
  }

  /** The iterate domain the user functor acts through, reduced to the calls it receives. */
  class IterateDomain {
    var calls: seq<UserCall>

    constructor ()
      ensures calls == []
    {
      calls := [];
    }

    /** do_impl: the enabled overload calls call_user_functor, the disabled one does nothing. */
    method DoImpl(runColor: nat, e: EsfArguments, iv: Interval)
      modifies this
      ensures calls == old(calls) + PlannedCallsAsWritten(runColor, e, iv)
    {
      if ColorEsfMatch(runColor, e) {
        CallUserFunctor(runColor, e, iv);
      }
    }

    /** call_user_functor: for a non-reduction, call_repeated invokes the colour-specialised
        Do method repeat_t times; the reduction overload does nothing. */
    method CallUserFunctor(runColor: nat, e: EsfArguments, iv: Interval)
      modifies this
      ensures e.isReduction ==> calls == old(calls)
      ensures !e.isReduction ==> calls == old(calls) + Repeat(UserCall(e.functorId, runColor, iv), e.repeat)
    {
      if e.isReduction {
        return;
      }
      var n := 0;
      while n < e.repeat
        invariant 0 <= n <= e.repeat
        invariant calls == old(calls) + Repeat(UserCall(e.functorId, runColor, iv), n)
      {
        calls := calls + [UserCall(e.functorId, runColor, iv)];
        n := n + 1;
      }
    }
  }

  /** A colour-less ESF runs at every colour; a coloured one at its own colour only. */
  lemma MatchingColours(e: EsfArguments)
    ensures e.color == NoColor ==> forall c :: ColorEsfMatch(c, e)
    ensures e.color.Color? ==> forall c :: ColorEsfMatch(c, e) <==> c == e.color.value
  {
  }
}
