/**
 * One order's processing run on a bot (internal/bot/worker.go). The race
 * between the processing timer and the bot's cancellation is an input:
 * `timerFired` says which side of the `select` won.
 */
module BotWorker {
  import opened Wrappers
  import opened BotModel
  import OM = OrderModel

  /** The duration used for a tier missing from the table. */
  const DefaultDuration: nat := 10

  /** The processing time of a tier, in seconds, with the fallback for unknown tiers. */
  function DurationOf(t: BotType): (d: nat)
    ensures t in ProcessingTimeMap ==> d == ProcessingTimeMap[t]
    ensures t !in ProcessingTimeMap ==> d == DefaultDuration
  {
    if t in ProcessingTimeMap then ProcessingTimeMap[t] else DefaultDuration
  }

  /**
   * The declared tiers never reach the fallback: Fast takes 5 seconds, Slow
   * 10, and every tier takes a positive time no longer than Slow's.
   */
  lemma DurationsByTier(t: BotType)
    ensures DurationOf(Fast) == 5 && DurationOf(Slow) == 10
    ensures DurationOf(Fast) < DurationOf(Slow)
    ensures 0 < DurationOf(t) <= DurationOf(Slow)
  {
    DeclaredDurations();
  }

  /**
   * Processes `ord` on `b`, started at tick `now`. On entry the bot becomes
   * Processing holding the order, and the order becomes Processing with its
   * start time set. If the timer fires (at `now` plus the tier's duration)
   * the order completes, the bot goes back to Idle and the completion
   * callback, when there is one, receives the order once; if the cancellation
   * wins the bot goes Offline and the order stays Processing, uncompleted.
   * `handedToCallback` lists the orders passed to the callback.
   */
  method ProcessOrder(b: Bot, ord: OM.Order, now: int, timerFired: bool, hasCallback: bool)
    returns (completed: bool, handedToCallback: seq<OM.Order>)
    modifies b, ord
    ensures completed == timerFired
    ensures ord.ProcessedAt == Some(now)
    ensures b.CurrentOrderID == None
    ensures completed ==> && b.Status == Idle
                          && ord.Status == OM.Complete
                          && ord.CompletedAt == Some(now + DurationOf(b.Type))
    ensures !completed ==> && b.Status == Offline
                           && ord.Status == OM.Processing
                           && ord.CompletedAt == old(ord.CompletedAt)
    ensures handedToCallback == if completed && hasCallback then [ord] else []
    ensures completed <==> ord.Status == OM.Complete
  {
    b.Status := Processing;
    b.CurrentOrderID := Some(ord.ID);
    ord.Status := OM.Processing;
    ord.ProcessedAt := Some(now);

    var duration := DurationOf(b.Type);

    handedToCallback := [];
    if timerFired {
      ord.Status := OM.Complete;
      ord.CompletedAt := Some(now + duration);
      b.Status := Idle;
      b.CurrentOrderID := None;
      if hasCallback {
        handedToCallback := [ord];
      }
      completed := true;
    } else {
      b.Status := Offline;
      b.CurrentOrderID := None;
      completed := false;
    }
  }
}
