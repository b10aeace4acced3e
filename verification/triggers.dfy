/** `RawTrigger`: a scheduled trigger as it is handed to the entity grain that
    owns it, and the command form it travels in through the task database. */
module Triggers {
  import opened Wrappers
  import opened Text
  import opened Commands
  import CommandIds

  datatype RawTrigger = RawTrigger(
    target: string,
    id: string,
    kind: string,
    parameter: string,
    grain: string,
    triggerAt: int)

  /** The five named parameters of a trigger command, all of type Set, in
      the order id, type, parameter, grain, at. */
  function TriggerParams(id: string, kind: string, parameter: string, grain: string, at: string): (ps: seq<NamedParameter>)
    ensures |ps| == 5
    ensures forall i :: 0 <= i < 5 ==> ps[i].paramType == Set
    ensures ps[0].name == CommandIds.TriggerId && ps[0].value == id
    ensures ps[1].name == CommandIds.TriggerType && ps[1].value == kind
    ensures ps[2].name == CommandIds.TriggerParameter && ps[2].value == parameter
    ensures ps[3].name == CommandIds.TriggerGrain && ps[3].value == grain
    ensures ps[4].name == CommandIds.TriggerAt && ps[4].value == at
  {
    [NamedParameter(Set, CommandIds.TriggerId, id),
     NamedParameter(Set, CommandIds.TriggerType, kind),
     NamedParameter(Set, CommandIds.TriggerParameter, parameter),
     NamedParameter(Set, CommandIds.TriggerGrain, grain),
     NamedParameter(Set, CommandIds.TriggerAt, at)]
  }

  /** `ToCommand`: a TRIGGER command for the trigger's target with no parent,
      comment or array parameters, whose "at" is the decimal time. */
  function ToCommand(t: RawTrigger): (c: RawCommand)
    ensures c.tag == CommandIds.Trigger && c.target == t.target
    ensures c.parent.None? && c.comment.None? && c.arrayParams == []
    ensures c.named == TriggerParams(t.id, t.kind, t.parameter, t.grain, IntToString(t.triggerAt))
  {
    RawCommand(CommandIds.Trigger, t.target, None, TriggerParams(t.id, t.kind, t.parameter, t.grain, IntToString(t.triggerAt)), [], None)
  }

  /** Each parameter of a trigger command is found by its name. */
  lemma TriggerParamsFound(id: string, kind: string, parameter: string, grain: string, at: string)
    ensures var ps := TriggerParams(id, kind, parameter, grain, at);
      FirstNamed(ps, CommandIds.TriggerId) == Some(ps[0]) &&
      FirstNamed(ps, CommandIds.TriggerType) == Some(ps[1]) &&
      FirstNamed(ps, CommandIds.TriggerParameter) == Some(ps[2]) &&
      FirstNamed(ps, CommandIds.TriggerGrain) == Some(ps[3]) &&
      FirstNamed(ps, CommandIds.TriggerAt) == Some(ps[4])
  {
    var ps := TriggerParams(id, kind, parameter, grain, at);
    var names := [CommandIds.TriggerId, CommandIds.TriggerType, CommandIds.TriggerParameter, CommandIds.TriggerGrain, CommandIds.TriggerAt];
    assert forall i :: 0 <= i < 5 ==> ps[i].name == names[i];
    assert forall i, j :: 0 <= i < j < 5 ==> names[i] != names[j] by {
      assert names[0][0] == 'i' && names[1][0] == 't' && names[2][0] == 'p' && names[3][0] == 'g' && names[4][0] == 'a';
    }
    FirstNamedAt(ps, names[0], 0);
    FirstNamedAt(ps, names[1], 1);
    FirstNamedAt(ps, names[2], 2);
    FirstNamedAt(ps, names[3], 3);
    FirstNamedAt(ps, names[4], 4);
  }

  /** `ToString`: the target, the grain, then type, id, parameter and time. */
  function Describe(t: RawTrigger): (s: string)
    ensures StartsWith(s, "`TRIGGER`: " + t.target + " `>>` " + t.grain)
  {
    "`TRIGGER`: " + t.target + " `>>` " + t.grain + " `:` <u>type:</u> " + t.kind + ", <u>id:</u> " + t.id +
    ", <u>parameter:</u> " + t.parameter + ", <u>at:</u> " + IntToString(t.triggerAt)
  }
}
