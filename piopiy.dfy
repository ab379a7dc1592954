/** The telephony SDK's action builder (piopiy.py): an append-only list of
    action records and its PCMO rendering. */
module Piopiy {
  import opened Pipeline

  /** One action dictionary: `{"action": ..., "url": ..., "parameters": ...}`. */
  datatype ActionRecord = ActionRecord(action: string, url: string, parameters: map<string, string>)

  /** The PCMO document `{"actions": [...]}`. */
  datatype Pcmo = Pcmo(actions: seq<ActionRecord>)

  /** The record `stream(url, params)` appends. `params or {}` replaces a
      missing (or empty) parameter dictionary by an empty one. */
  function StreamRecord(url: string, params: Option<map<string, string>>): (r: ActionRecord)
    ensures r.action == "stream" && r.url == url
    ensures params.None? ==> r.parameters == map[]
    ensures params.Some? ==> r.parameters == params.value
  {
    ActionRecord("stream", url, match params case None => map[] case Some(p) => if p == map[] then map[] else p)
  }

  /** Passing no parameters and passing an empty dictionary give the same
      record. */
  lemma NoParamsIsEmptyParams(url: string)
    ensures StreamRecord(url, None) == StreamRecord(url, Some(map[]))
  {
  }

  /** `Action`: the list of action records built so far. */
  class Action {
    var actions: seq<ActionRecord>

    constructor ()
      ensures actions == []
    {
      actions := [];
    }

    /** `stream`: appends exactly one stream record and keeps the earlier ones. */
    method Stream(url: string, params: Option<map<string, string>>)
      modifies this
      ensures actions == old(actions) + [StreamRecord(url, params)]
    {
      actions := actions + [StreamRecord(url, params)];
    }

    /** `PCMO`: all records, in the order of the calls; reading it changes
        nothing. */
    function PCMO(): (r: Pcmo)
      reads this
      ensures r.actions == actions
    {
      Pcmo(actions)
    }
  }
}
