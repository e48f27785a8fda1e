/** The data model shared by every store: assistance objects and their parameters.

    The source declares the envelope with only `aId`, `aoId` and `parameters`, but the
    message-exchange engine also reads `messageId` and `assistanceType` and writes `type`,
    so all of these are optional fields here. Parameter values are untyped in the source;
    `Value` distinguishes exactly the shapes the engine inspects. */
module AssistanceObjects {

  datatype Option<+T> = None | Some(value: T)

  /** A JavaScript value as far as the stores look at it.
      - `Str`: a string (the `''` default of a lookup is `Str("")`);
      - `StateInfo`: an object with optional `phase` and `status` members, the payload of
        `state_update` and `state_update_response` parameters;
      - `Nullish`: `null` or `undefined`;
      - `Opaque`: any other value (numbers, arrays, other objects), known only by its truthiness. */
  datatype Value =
    | Str(s: string)
    | StateInfo(phase: Option<int>, status: Option<string>)
    | Nullish
    | Opaque(truthy: bool)

  /** JavaScript truthiness of a value: the empty string and null/undefined are falsy,
      every object is truthy. */
  predicate Truthy(v: Value)
  {
    match v
    case Str(s) => s != ""
    case StateInfo(_, _) => true
    case Nullish => false
    case Opaque(t) => t
  }

  /** JavaScript truthiness of an optional string field: absent and `''` are both falsy. */
  predicate Present(o: Option<string>)
  {
    o.Some? && o.value != ""
  }

  /** One key/value unit of an assistance object. */
  datatype Parameter = Parameter(key: string, value: Value)

  /** The assistance-object envelope. `itemType` is the source's `type`, the classification
      the engine assigns on ingestion; `parameters` may be missing altogether. */
  datatype Message = Message(
    aId: Option<string>,
    aoId: Option<string>,
    messageId: Option<string>,
    assistanceType: Option<string>,
    itemType: Option<string>,
    parameters: Option<seq<Parameter>>)

  /** The parameters a lookup or scan visits: none when the list is missing. */
  function ParametersOf(m: Message): seq<Parameter>
  {
    if m.parameters.Some? then m.parameters.value else []
  }
}
