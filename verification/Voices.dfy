/**
 What `hubctl workspace demo --voices` hands to `scripts/seed-demo.py`: writes left to
 their speakers, and the marks that say which objects the showcase made.
 */
module Voices {
  import opened Wrappers
  import opened Placeholders
  import opened Json

  type Body = Json<string>

  /** A mark to write once the object is made. */
  datatype Mark = Mark(key: string, kind: string)

  /** One write left to its speaker; "" is the signed-in person. */
  datatype Voice = Voice(
    speaker: string, what: string, verb: string, path: string, body: Option<Body>, mark: Option<Mark>)

  /** One call as the server sees it: who made it, and what. */
  datatype Request = Request(sender: string, verb: string, path: string, body: Option<Body>)

  /** A row of the server's mark table. */
  datatype Stored = Stored(id: string, version: Option<int>)

  // ---------------------------------------------------------------- the voices a body waits for

  function BodyRefs(v: Body): set<nat> {
    match v
    case Text(s) => Refs(s)
    case Array(fs) => FieldsRefs(fs)
    case Object(fs) => FieldsRefs(fs)
    case _ => {}
  }

  function FieldsRefs(fs: Fields<string>): set<nat> {
    if fs.End? then {} else BodyRefs(fs.value) + FieldsRefs(fs.rest)
  }

  /** The numbers spelled in the member names, which the replay does not replace. */
  function KeyRefs(v: Body): set<nat> {
    match v
    case Array(fs) => FieldsKeyRefs(fs)
    case Object(fs) => FieldsKeyRefs(fs)
    case _ => {}
  }

  function FieldsKeyRefs(fs: Fields<string>): set<nat> {
    if fs.End? then {} else Refs(fs.key) + KeyRefs(fs.value) + FieldsKeyRefs(fs.rest)
  }

  /** Every voice a queued write names in its path or body. */
  function VoiceRefs(v: Voice): set<nat> {
    Refs(v.path) + if v.body.Some? then BodyRefs(v.body.value) else {}
  }
}
