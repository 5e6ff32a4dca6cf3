/**
 * The duration resolver of the `mute` command (index.js:73-82): turns the words
 * after the channel mention into an absolute expiry instant. Times are epoch
 * milliseconds. The natural-language parser (chrono) is a parameter: a total
 * function from a phrase and a reference instant to an instant, or `None` when
 * it does not understand the phrase.
 */
module Duration {
  import opened Wrappers

  const MINUTE: int := 60_000
  const HOUR: int := 3_600_000

  /** Appended to a phrase that the parser did not understand on its own. */
  const FROM_NOW: string := " from now"

  const TOO_SHORT: string := "mute must be at least 1 minute long"

  type Parser = (string, int) -> Option<int>

  datatype Resolution = Expiry(endTime: int) | Rejected(reason: string)

  /**
   * The fallback chain: the phrase, else the phrase with " from now" appended,
   * else one hour from now. An answer equal to `now` counts as no answer. The
   * " from now" retry happens only when the first parse gives nothing at all,
   * so a first answer equal to `now` goes straight to the default.
   */
  function Interpret(phrase: string, now: int, parse: Parser): (t: int)
    ensures t != now
    ensures parse(phrase, now).Some? && parse(phrase, now).value != now ==>
              t == parse(phrase, now).value
    ensures parse(phrase, now) == Some(now) ==> t == now + HOUR
    ensures parse(phrase, now).None? && parse(phrase + FROM_NOW, now).Some?
              && parse(phrase + FROM_NOW, now).value != now ==>
              t == parse(phrase + FROM_NOW, now).value
    ensures parse(phrase, now).None? && (parse(phrase + FROM_NOW, now).None?
              || parse(phrase + FROM_NOW, now) == Some(now)) ==>
              t == now + HOUR
  {
    var first := parse(phrase, now);
    var interpreted := if first.None? then parse(phrase + FROM_NOW, now) else first;
    if interpreted.None? || interpreted.value == now then now + HOUR else interpreted.value
  }

  /**
   * The interpreted instant, accepted only when it is at least one minute after
   * `now` (the minimum is computed from `now`, not from the interpreted instant).
   */
  function Resolve(phrase: string, now: int, parse: Parser): (r: Resolution)
    ensures r.Expiry? <==> Interpret(phrase, now, parse) >= now + MINUTE
    ensures r.Expiry? ==> r.endTime == Interpret(phrase, now, parse) && r.endTime >= now + MINUTE
    ensures r.Rejected? ==> r.reason == TOO_SHORT
  {
    var t := Interpret(phrase, now, parse);
    if t < now + MINUTE then Rejected(TOO_SHORT) else Expiry(t)
  }

  /** When the parser understands neither form of the phrase, the mute lasts exactly one hour. */
  lemma DefaultIsOneHour(phrase: string, now: int, parse: Parser)
    requires parse(phrase, now).None? && parse(phrase + FROM_NOW, now).None?
    ensures Resolve(phrase, now, parse) == Expiry(now + HOUR)
  {
  }

  /** Every phrase resolves to an expiry or to the one rejection, and only a parsed answer can be rejected. */
  lemma RejectedOnlyWhenParsedTooSoon(phrase: string, now: int, parse: Parser)
    requires Resolve(phrase, now, parse).Rejected?
    ensures var t := Interpret(phrase, now, parse);
      t < now + MINUTE && (Some(t) == parse(phrase, now) || Some(t) == parse(phrase + FROM_NOW, now))
  {
  }
}
