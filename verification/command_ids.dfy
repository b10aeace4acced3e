/** Command tags and system parameter names (`Talepreter.Model.Command.CommandIds`).

    The class that declares them is not part of this model. The values
    below are the literals that other code of the repository writes for the
    same names: `RawTrigger.ToCommand` for the trigger tag and its parameters,
    and `ExecuteCommandContext` for "!start", "!stay", "!voyage" and
    "!mustexist". The names of the two location parameters appear nowhere as
    literals; they are distinct strings in the same style. */
module CommandIds {
  const Trigger: string := "TRIGGER"

  const TriggerId: string := "id"
  const TriggerType: string := "type"
  const TriggerParameter: string := "parameter"
  const TriggerGrain: string := "grain"
  const TriggerAt: string := "at"

  const Start: string := "!start"
  const StartLocation: string := "!startlocation"
  const Stay: string := "!stay"
  const TravelTo: string := "!travelto"
  const Voyage: string := "!voyage"
  const MustExist: string := "!mustexist"

  /** The five timeline parameter names are pairwise different. */
  lemma TimelineNamesDistinct()
    ensures Start != StartLocation && Start != Stay && Start != TravelTo && Start != Voyage
    ensures StartLocation != Stay && StartLocation != TravelTo && StartLocation != Voyage
    ensures Stay != TravelTo && Stay != Voyage && TravelTo != Voyage
  {
    assert |Start| == 6 && |StartLocation| == 14 && |Stay| == 5 && |TravelTo| == 9 && |Voyage| == 7;
  }
}
