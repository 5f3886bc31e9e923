/** The bot record and its constant tables (internal/bot/model.go). Durations are whole seconds. */
module BotModel {
  import opened Wrappers

  /** Bot lifecycle; Faulted is declared but no operation of the model assigns it. */
  datatype BotStatus = Idle | Processing | Offline | Faulted

  /** Bot tiers are open strings in the source; two are declared. */
  type BotType = string

  const Fast: BotType := "FAST"
  const Slow: BotType := "SLOW"

  /** Processing time per tier, in seconds. */
  const ProcessingTimeMap: map<BotType, nat> := map[Fast := 5, Slow := 10]

  /** Both declared tiers have an entry; Fast is strictly quicker than Slow. */
  lemma DeclaredDurations()
    ensures ProcessingTimeMap.Keys == {Fast, Slow}
    ensures ProcessingTimeMap[Fast] == 5 && ProcessingTimeMap[Slow] == 10
    ensures ProcessingTimeMap[Fast] < ProcessingTimeMap[Slow]
  {
  }

  /**
   * A bot. Its ID and tier never change after creation; its status and the
   * order it holds change in place.
   */
  class Bot {
    const ID: string
    const Type: BotType
    var Status: BotStatus
    var CurrentOrderID: Option<int>

    constructor (id: string, botType: BotType)
      ensures ID == id && Type == botType && Status == Idle && CurrentOrderID == None
    {
      ID := id;
      Type := botType;
      Status := Idle;
      CurrentOrderID := None;
    }
  }
}
