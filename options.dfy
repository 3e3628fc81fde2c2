/** The option record and the action callback of the selection menus,
    shared by src/panda_util/selection.py and the legacy selection.py. */
module Options {
  import opened Wrappers
  import opened PyObj

  datatype SelectionOption = SelectionOption(name: string, description: string, value: PyValue,
                                             additionalInfo: PyValue)

  /** `SelectionOption(name, description, value, additional_info)`: a missing
      value defaults to the name, and a falsy (or missing) additional info
      becomes the empty dict. */
  function NewOption(name: string, description: string, value: PyValue, additionalInfo: PyValue)
    : (o: SelectionOption)
    ensures o.name == name && o.description == description
    ensures o.value != PyNone
    ensures value != PyNone ==> o.value == value
    ensures value == PyNone ==> o.value == PyStr(name)
    ensures IsTruthy(additionalInfo) ==> o.additionalInfo == additionalInfo
    ensures !IsTruthy(additionalInfo) ==> o.additionalInfo == PyDict([])
  {
    SelectionOption(name, description,
                    if value != PyNone then value else PyStr(name),
                    if IsTruthy(additionalInfo) then additionalInfo else PyDict([]))
  }

  /** An option built with only a name: its value is that name as a string
      and it has no additional info. */
  lemma NameOnlyOption(name: string)
    ensures NewOption(name, "", PyNone, PyNone) == SelectionOption(name, "", PyStr(name), PyDict([]))
  {
  }

  /** The action of a callback is opaque; it is named by an identifier. */
  datatype ActionCallback = ActionCallback(action: nat, passCaller: bool, args: seq<PyValue>)

  /** An argument of an invocation: the calling menu, or one of the stored
      arguments. */
  datatype Arg = Caller | Plain(value: PyValue)

  /** One call of an action, with its arguments. */
  datatype Invocation = Invocation(action: nat, args: seq<Arg>)

  function Plains(args: seq<PyValue>): (r: seq<Arg>)
    ensures |r| == |args| && forall i :: 0 <= i < |args| ==> r[i] == Plain(args[i])
  {
    seq(|args|, i requires 0 <= i < |args| => Plain(args[i]))
  }

  /** `ActionCallback.call(caller)`: the caller comes first exactly when
      `pass_caller` is set, and the stored arguments follow in order. */
  function Call(cb: ActionCallback): (inv: Invocation)
    ensures inv.action == cb.action
    ensures |inv.args| == |cb.args| + (if cb.passCaller then 1 else 0)
    ensures cb.passCaller <==> (inv.args != [] && inv.args[0] == Caller)
    ensures forall i :: 0 <= i < |cb.args| ==> inv.args[|inv.args| - |cb.args| + i] == Plain(cb.args[i])
  {
    Invocation(cb.action, (if cb.passCaller then [Caller] else []) + Plains(cb.args))
  }
}
