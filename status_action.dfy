/**
 * The chatbot's custom action that answers "what is the status of X?".
 *
 * The action reads the latest `application` entity of the conversation (no
 * entity, or an empty one, makes it ask which application is meant), looks
 * the lower-cased name up in a fixed status table with "Unknown System" as
 * the default, utters the answer and returns no events. The uttered message
 * is the `utterance` of the result.
 */
module StatusAction {
  import opened Wrappers
  import opened Ascii

  /** The name under which the action is registered with the chatbot. */
  const ActionName: string := "action_check_status"

  /**
   * The question asked when no application is named. It is written as two
   * literals because the verifier reads the characters of a long literal
   * only when it is split into shorter pieces.
   */
  const MissingEntityPrompt: string := "Which application's status " + "would you like to check?"

  const UnknownSystem: string := "Unknown System"

  /** The mock status table, keyed by lower-case application name. */
  const SystemStatus: map<string, string> := map[
    "sap" := "Online",
    "vpn" := "Experiencing Intermittent Issues",
    "email" := "Online",
    "glpi" := "Under Maintenance"
  ]

  /** An event returned to the dialogue engine (a slot update, for instance). */
  type Event = map<string, string>

  /** What one run of the action produces: the uttered text and the returned events. */
  datatype ActionOutcome = ActionOutcome(utterance: string, events: seq<Event>)

  /**
   * The status looked up for an application name, case-insensitively, with
   * "Unknown System" as the default: always one of the table's statuses or
   * the default.
   */
  function StatusOf(appName: string): (status: string)
    ensures status == UnknownSystem || status in SystemStatus.Values
  {
    var key := Lower(appName);
    if key in SystemStatus then SystemStatus[key] else UnknownSystem
  }

  /** The answer quoting the application name as the user wrote it, and ending with the status. */
  function StatusReply(appName: string, status: string): (r: string)
    ensures |r| == 22 + |appName| + 5 + |status| + 1
    ensures r[..22] == "The current status of "
    ensures r[22..22 + |appName|] == appName
    ensures r[22 + |appName|..22 + |appName| + 5] == " is: "
    ensures r[|r| - |status| - 1..] == status + "."
  {
    "The current status of " + appName + " is: " + status + "."
  }

  /** One run of the action on the latest `application` entity, if any. */
  function Run(appName: Option<string>): (r: ActionOutcome)
    ensures r.events == []
    ensures r.utterance == MissingEntityPrompt <==> appName == None || appName == Some("")
    ensures appName != None && appName != Some("") ==>
      r.utterance == StatusReply(appName.value, StatusOf(appName.value))
  {
    if appName == None || appName == Some("") then
      ActionOutcome(MissingEntityPrompt, [])
    else
      var reply := StatusReply(appName.value, StatusOf(appName.value));
      assert reply[0] == 'T' && MissingEntityPrompt[0] == 'W';
      ActionOutcome(reply, [])
  }

  /** Two names that agree up to the case of ASCII letters. */
  predicate SameUpToCase(a: string, b: string)
  {
    |a| == |b| && forall i :: 0 <= i < |a| ==> ToLower(a[i]) == ToLower(b[i])
  }

  /** Names that differ only in letter case get the same status. */
  lemma StatusIsCaseInsensitive(a: string, b: string)
    requires SameUpToCase(a, b)
    ensures StatusOf(a) == StatusOf(b)
  {
    assert Lower(a) == Lower(b);
  }

  /**
   * A name gets a real status exactly when its lower-case form is one of the
   * four table keys; every other name gets "Unknown System".
   */
  lemma UnknownUnlessKey(appName: string)
    ensures StatusOf(appName) != UnknownSystem <==> Lower(appName) in {"sap", "vpn", "email", "glpi"}
  {
  }
}
