/**
 * `Enum.checkconsistency`: a scheme is accepted when every entry has its three
 * fields, the enum header ends with the role's class name, and no constant
 * contains the count marker `_NUM_`. The checks run in that order and the
 * first that fails decides the exception.
 */
module Consistency {
  import opened Common
  import opened Strings
  import opened Schemes

  /** The substring that marks the count member of an enum (`..._NUM_IN`). */
  const CountMarker := "_NUM_"

  /**
   * The verdict on a scheme, stated with quantifiers over its entries:
   * None when it is accepted, otherwise the first exception raised.
   */
  function Verdict(s: Scheme): (r: Option<Failure>)
    ensures r.None? ==> s.Renderable()
    ensures r.None? <==> ((forall i :: 0 <= i < |s.entries| ==> s.entries[i].enumConst.Some?)
                          && s.enumHeader.Some? && EndsWith(s.enumHeader.value, RoleName(s.role))
                          && (forall i :: 0 <= i < |s.entries| ==> !Contains(s.entries[i].enumConst.value, CountMarker)))
  {
    if exists i :: 0 <= i < |s.entries| && s.entries[i].enumConst.None? then Some(IncompleteEntry)
    else if s.enumHeader.None? then Some(MissingHeader)
    else if !EndsWith(s.enumHeader.value, RoleName(s.role)) then Some(HeaderSuffix)
    else if exists i :: 0 <= i < |s.entries| && Contains(s.entries[i].enumConst.value, CountMarker) then
      Some(ReservedConstant)
    else None
  }

  /** The checks, in the order and with the loops of `checkconsistency`. */
  method CheckConsistency(s: Scheme) returns (r: Option<Failure>)
    ensures r == Verdict(s)
  {
    for i := 0 to |s.entries|
      invariant forall k :: 0 <= k < i ==> s.entries[k].enumConst.Some?
    {
      if s.entries[i].enumConst.None? {
        return Some(IncompleteEntry);
      }
    }
    if s.enumHeader.None? {
      return Some(MissingHeader);
    }
    if !EndsWith(s.enumHeader.value, RoleName(s.role)) {
      return Some(HeaderSuffix);
    }
    for i := 0 to |s.entries|
      invariant forall k :: 0 <= k < i ==> !Contains(s.entries[k].enumConst.value, CountMarker)
    {
      if Contains(s.entries[i].enumConst.value, CountMarker) {
        return Some(ReservedConstant);
      }
    }
    return None;
  }

  /** The role names differ in their last four characters, so no header ends with both. */
  lemma RoleSuffixesExclusive(h: string)
    ensures !(EndsWith(h, RoleName(Input)) && EndsWith(h, RoleName(Output)))
  {
    assert EndsWith(h, "Input") ==> h[|h| - 4] == "Input"[1] == 'n';
    assert EndsWith(h, "Output") ==> h[|h| - 4] == "Output"[2] == 't';
  }

  /**
   * A header named after the other role (`enum fooOut{` under an `Input arguments`
   * marker) is rejected, however many complete entries the scheme has.
   */
  lemma WrongRoleRejected(s: Scheme, other: Role)
    requires other != s.role
    requires s.enumHeader.Some? && EndsWith(s.enumHeader.value, RoleName(other))
    ensures Verdict(s).Some?
    ensures (forall i :: 0 <= i < |s.entries| ==> s.entries[i].enumConst.Some?) ==> Verdict(s) == Some(HeaderSuffix)
  {
    RoleSuffixesExclusive(s.enumHeader.value);
  }
}
