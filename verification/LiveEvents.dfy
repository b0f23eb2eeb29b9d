/** What arrives on the live event stream, as both panes of the live page read it.
    A field the JSON leaves out is the empty string, zero or false, which is how the
    scripts treat it. */
module LiveEvents {
  import opened Prelude

  /** A request id. Ids are only ever compared; the empty one is no id at all. */
  datatype RequestId = RequestId(text: string)

  const NO_ID: RequestId := RequestId("")

  /** `call_phase`; anything else is read as no phase. */
  datatype CallPhase = Request | Response | Error | NoPhase

  datatype Log = Log(
    level: string,
    message: string,
    timestamp: string,
    isNetworkCall: bool,
    requestId: RequestId,
    callPhase: CallPhase,
    verb: string,           // `method` in the JSON
    url: string,
    statusCode: int)

  datatype LiveEvent = LiveEvent(at: string, log: Log)

  /** Browser text handling the scripts rely on and do not define. */
  datatype Text = Text(
    lower: string -> string,
    trim: string -> string,
    clock: string -> string,           // timeOf
    path: string -> string,            // pathOf
    parseDate: string -> Option<int>)  // None is NaN

  function Stamp(ev: LiveEvent): string {
    if ev.log.timestamp != "" then ev.log.timestamp else ev.at
  }

  predicate OccursAt(hay: string, needle: string, i: nat) {
    i + |needle| <= |hay| && hay[i..i + |needle|] == needle
  }

  /** includes(), and indexOf() !== -1. */
  predicate Contains(hay: string, needle: string) {
    exists i :: 0 <= i <= |hay| && OccursAt(hay, needle, i)
  }

  ghost predicate Splits(hay: string, before: string, needle: string, behind: string) {
    hay == before + needle + behind
  }

  /** Somewhere in hay the needle stands. */
  ghost predicate Occurs(needle: string, hay: string) {
    exists before: string, behind: string :: Splits(hay, before, needle, behind)
  }

  lemma ContainsIsOccurs(hay: string, needle: string)
    ensures Contains(hay, needle) <==> Occurs(needle, hay)
  {
    if Contains(hay, needle) {
      var i :| 0 <= i <= |hay| && OccursAt(hay, needle, i);
      assert Splits(hay, hay[..i], needle, hay[i + |needle|..]);
    }
    if Occurs(needle, hay) {
      var before: string, behind: string :| Splits(hay, before, needle, behind);
      assert hay[|before|..|before| + |needle|] == needle;
      assert OccursAt(hay, needle, |before|);
    }
  }
}
