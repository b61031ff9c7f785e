/**
 * The Room type converter that stores an `ActionType` as its constant name
 * and reads it back with `valueOf`, which throws on an unknown name.
 */
module Converters {
  import opened Models

  /** The constant's name, as Kotlin's `Enum.name` gives it. */
  function FromActionType(t: ActionType): (s: string)
    ensures |s| > 0
  {
    match t
    case ADD_ITEM => "ADD_ITEM"
    case UPDATE_ITEM => "UPDATE_ITEM"
    case DELETE_ITEM => "DELETE_ITEM"
    case UPDATE_QUANTITY => "UPDATE_QUANTITY"
    case ADD_CATEGORY => "ADD_CATEGORY"
  }

  /** `ActionType.valueOf`: `None` stands for the IllegalArgumentException
      thrown on a string that is not exactly a constant's name. */
  function ToActionType(s: string): (r: Option<ActionType>)
    // a string that reads back is exactly that constant's name
    ensures r.Some? ==> FromActionType(r.value) == s
  {
    if s == "ADD_ITEM" then Some(ADD_ITEM)
    else if s == "UPDATE_ITEM" then Some(UPDATE_ITEM)
    else if s == "DELETE_ITEM" then Some(DELETE_ITEM)
    else if s == "UPDATE_QUANTITY" then Some(UPDATE_QUANTITY)
    else if s == "ADD_CATEGORY" then Some(ADD_CATEGORY)
    else None
  }

  /** Reading back a stored type gives the same type. */
  lemma ToFromRoundTrip(t: ActionType)
    ensures ToActionType(FromActionType(t)) == Some(t)
  {
  }

  /** Distinct types are stored as distinct strings. */
  lemma FromActionTypeInjective(a: ActionType, b: ActionType)
    ensures FromActionType(a) == FromActionType(b) ==> a == b
  {
    if FromActionType(a) == FromActionType(b) {
      ToFromRoundTrip(a);
      ToFromRoundTrip(b);
    }
  }

  /** A string that reads back as a type is exactly that type's name. */
  lemma FromToRoundTrip(s: string)
    requires ToActionType(s).Some?
    ensures FromActionType(ToActionType(s).value) == s
  {
  }

  /** Reading fails exactly on the strings that are no type's name. */
  lemma ToActionTypeFailsOnOtherNames(s: string)
    ensures ToActionType(s).None? <==> forall t: ActionType :: FromActionType(t) != s
  {
    if ToActionType(s).None? {
      forall t: ActionType ensures FromActionType(t) != s {
        ToFromRoundTrip(t);
      }
    } else {
      FromToRoundTrip(s);
    }
  }
}
