/** The display store (src/stores/display.ts): whether the dialog and the notes view are
    open, and eight feature flags switched by `operation` messages. */
module Display {
  import opened AssistanceObjects
  import opened AssistanceObjectHelper

  datatype State = State(
    dialogOpen: bool,
    notesAndPeerSolutionOpen: bool,
    abortExchangeCommandEnabled: bool,
    chatEnabled: bool,
    notesEnabled: bool,
    notesInputEnabled: bool,
    notesCommandEnabled: bool,
    optionsEnabled: bool,
    peerSolutionEnabled: bool,
    peerSolutionCommandEnabled: bool)

  /** The features an `operation` message can switch on or off. */
  datatype Feature =
    | AbortExchangeCommand
    | Chat
    | Notes
    | NotesInput
    | NotesCommand
    | Options
    | PeerSolution
    | PeerSolutionCommand

  /** The flag that holds a feature's state. */
  function Enabled(s: State, f: Feature): bool
  {
    match f
    case AbortExchangeCommand => s.abortExchangeCommandEnabled
    case Chat => s.chatEnabled
    case Notes => s.notesEnabled
    case NotesInput => s.notesInputEnabled
    case NotesCommand => s.notesCommandEnabled
    case Options => s.optionsEnabled
    case PeerSolution => s.peerSolutionEnabled
    case PeerSolutionCommand => s.peerSolutionCommandEnabled
  }

  /** The state with one feature's flag set to `b`: that flag reads `b`, the view flags
      keep their values, and (`WithFeatureKeepsOthers`) so do the other features. */
  function WithFeature(s: State, f: Feature, b: bool): (r: State)
    ensures Enabled(r, f) == b
    ensures r.dialogOpen == s.dialogOpen && r.notesAndPeerSolutionOpen == s.notesAndPeerSolutionOpen
  {
    match f
    case AbortExchangeCommand => s.(abortExchangeCommandEnabled := b)
    case Chat => s.(chatEnabled := b)
    case Notes => s.(notesEnabled := b)
    case NotesInput => s.(notesInputEnabled := b)
    case NotesCommand => s.(notesCommandEnabled := b)
    case Options => s.(optionsEnabled := b)
    case PeerSolution => s.(peerSolutionEnabled := b)
    case PeerSolutionCommand => s.(peerSolutionCommandEnabled := b)
  }

  /** Setting one feature's flag leaves the flag of any other feature as it was. */
  lemma WithFeatureKeepsFlag(s: State, f: Feature, b: bool, g: Feature)
    requires g != f
    ensures Enabled(WithFeature(s, f, b), g) == Enabled(s, g)
  {
  }

  /** `WithFeatureKeepsFlag` for all other features at once. */
  lemma WithFeatureKeepsOthers(s: State, f: Feature, b: bool)
    ensures forall g :: g != f ==> Enabled(WithFeature(s, f, b), g) == Enabled(s, g)
  {
    forall g | g != f
      ensures Enabled(WithFeature(s, f, b), g) == Enabled(s, g)
    {
      WithFeatureKeepsFlag(s, f, b, g);
    }
  }

  /** Setting a flag to the value it already has changes nothing. */
  lemma WithFeatureIdempotent(s: State, f: Feature, b: bool)
    ensures WithFeature(WithFeature(s, f, b), f, b) == WithFeature(s, f, b)
  {
    match f
    case AbortExchangeCommand =>
    case Chat =>
    case Notes =>
    case NotesInput =>
    case NotesCommand =>
    case Options =>
    case PeerSolution =>
    case PeerSolutionCommand =>
  }

  /** The store's initial state: everything closed and disabled. */
  function Init(): (r: State)
    ensures !r.dialogOpen && !r.notesAndPeerSolutionOpen
    ensures forall f :: !Enabled(r, f)
  {
    State(false, false, false, false, false, false, false, false, false, false)
  }

  /** `resetValues`: all ten booleans, including the two view flags, become false, which is
      the initial state. */
  function ResetValues(s: State): (r: State)
    ensures !r.dialogOpen && !r.notesAndPeerSolutionOpen
    ensures forall f :: !Enabled(r, f)
    ensures r == Init()
  {
    s.(dialogOpen := false,
       notesAndPeerSolutionOpen := false,
       abortExchangeCommandEnabled := false,
       chatEnabled := false,
       notesEnabled := false,
       notesInputEnabled := false,
       notesCommandEnabled := false,
       optionsEnabled := false,
       peerSolutionEnabled := false,
       peerSolutionCommandEnabled := false)
  }

  /** `changeDialogOpen`: only `dialogOpen` changes. */
  function ChangeDialogOpen(s: State, dialogOpen: bool): (r: State)
    ensures r.dialogOpen == dialogOpen
    ensures r.notesAndPeerSolutionOpen == s.notesAndPeerSolutionOpen
    ensures forall f :: Enabled(r, f) == Enabled(s, f)
  {
    s.(dialogOpen := dialogOpen)
  }

  /** `changeNotesAndPeerSolutionOpen`: only `notesAndPeerSolutionOpen` changes. */
  function ChangeNotesAndPeerSolutionOpen(s: State, open: bool): (r: State)
    ensures r.notesAndPeerSolutionOpen == open
    ensures r.dialogOpen == s.dialogOpen
    ensures forall f :: Enabled(r, f) == Enabled(s, f)
  {
    s.(notesAndPeerSolutionOpen := open)
  }

  /** What an operation value asks for: switch `feature` on or off. */
  datatype Toggle = Toggle(feature: Feature, enable: bool)

  /** The suffix that names a feature in the operation values `enable_X` / `disable_X`. */
  function FeatureName(f: Feature): string
  {
    match f
    case AbortExchangeCommand => "abort_exchange_command"
    case Chat => "chat"
    case Notes => "notes"
    case NotesInput => "notes_input"
    case NotesCommand => "notes_command"
    case Options => "options"
    case PeerSolution => "peer_solution"
    case PeerSolutionCommand => "peer_solution_command"
  }

  /** The feature a name suffix denotes, if any. */
  function FeatureNamed(name: string): (r: Option<Feature>)
    ensures r.Some? ==> FeatureName(r.value) == name
  {
    if name == "abort_exchange_command" then Some(AbortExchangeCommand)
    else if name == "chat" then Some(Chat)
    else if name == "notes" then Some(Notes)
    else if name == "notes_input" then Some(NotesInput)
    else if name == "notes_command" then Some(NotesCommand)
    else if name == "options" then Some(Options)
    else if name == "peer_solution" then Some(PeerSolution)
    else if name == "peer_solution_command" then Some(PeerSolutionCommand)
    else None
  }

  /** The operation value that switches `t.feature` on or off: `enable_X` or `disable_X`. */
  function OperationName(t: Toggle): string
  {
    (if t.enable then "enable_" else "disable_") + FeatureName(t.feature)
  }

  /** A string is its prefix followed by the rest. */
  lemma SplitAt(s: string, n: nat)
    requires n <= |s|
    ensures s == s[..n] + s[n..]
  {
  }

  /** The sixteen cases of the `switch` in `processOperation`, which are exactly the strings
      `enable_` or `disable_` followed by one of the eight feature names above. Any other
      value (including the `''` of a missing `operation` parameter, or a non-string) matches
      no case. */
  function DecodeOperation(op: Value): (r: Option<Toggle>)
    ensures r.Some? ==> op == Str(OperationName(r.value))
    ensures !op.Str? ==> r.None?
  {
    match op
    case Str(s) =>
      if |s| >= 7 && s[..7] == "enable_" then
        match FeatureNamed(s[7..])
        case Some(f) =>
          assert s == s[..7] + s[7..] by { SplitAt(s, 7); }
          Some(Toggle(f, true))
        case None => None
      else if |s| >= 8 && s[..8] == "disable_" then
        match FeatureNamed(s[8..])
        case Some(f) =>
          assert s == s[..8] + s[8..] by { SplitAt(s, 8); }
          Some(Toggle(f, false))
        case None => None
      else None
    case _ => None
  }

  /** `processOperation`: switch on the message's `operation` value. The view flags never
      change, an unrecognised value changes nothing, and a recognised one sets its feature's
      flag (`ProcessOperationChangesAtMostOneFlag`: and no other). */
  function ProcessOperation(s: State, m: Message): (r: State)
    ensures r.dialogOpen == s.dialogOpen && r.notesAndPeerSolutionOpen == s.notesAndPeerSolutionOpen
    ensures DecodeOperation(ParameterValue(m, "operation")).None? ==> r == s
    ensures DecodeOperation(ParameterValue(m, "operation")).Some? ==>
              var t := DecodeOperation(ParameterValue(m, "operation")).value;
              Enabled(r, t.feature) == t.enable
  {
    match DecodeOperation(ParameterValue(m, "operation"))
    case None => s
    case Some(Toggle(f, b)) => WithFeature(s, f, b)
  }

  // ---------------------------------------------------------------------------------
  // Properties

  /** Every feature is found again from its name. */
  lemma FeatureNameRoundTrip(f: Feature)
    ensures FeatureNamed(FeatureName(f)) == Some(f)
  {
    match f
    case AbortExchangeCommand =>
    case Chat =>
    case Notes =>
    case NotesInput =>
    case NotesCommand =>
    case Options =>
    case PeerSolution =>
    case PeerSolutionCommand =>
  }

  /** The switch recognises exactly the `enable_X` / `disable_X` names, each for its own
      feature and direction. */
  lemma DecodeOperationIsNaming(op: string, t: Toggle)
    ensures DecodeOperation(Str(op)) == Some(t) <==> op == OperationName(t)
  {
    var name := OperationName(t);
    var prefix := if t.enable then "enable_" else "disable_";
    assert name[..|prefix|] == prefix && name[|prefix|..] == FeatureName(t.feature);
    FeatureNameRoundTrip(t.feature);
    if !t.enable {
      assert name[..7] != "enable_" by {
        assert name[..7][0] == 'd';
      }
    }
    if DecodeOperation(Str(op)) == Some(t) {
      assert op == prefix + op[|prefix|..];
    }
  }

  /** Whatever the message, at most one feature flag changes. */
  lemma ProcessOperationChangesAtMostOneFlag(s: State, m: Message)
    ensures var r := ProcessOperation(s, m);
            forall f, g :: f != g && Enabled(r, f) != Enabled(s, f) ==> Enabled(r, g) == Enabled(s, g)
  {
    match DecodeOperation(ParameterValue(m, "operation"))
    case None =>
    case Some(Toggle(f, b)) =>
      WithFeatureKeepsOthers(s, f, b);
  }

  /** `enable_X` sets exactly the flag of X to true, `disable_X` exactly that flag to false. */
  lemma OperationSetsExactlyItsFeature(s: State, m: Message, t: Toggle)
    requires ParameterValue(m, "operation") == Str(OperationName(t))
    ensures var r := ProcessOperation(s, m);
            && Enabled(r, t.feature) == t.enable
            && (forall g :: g != t.feature ==> Enabled(r, g) == Enabled(s, g))
            && r.dialogOpen == s.dialogOpen
            && r.notesAndPeerSolutionOpen == s.notesAndPeerSolutionOpen
  {
    DecodeOperationIsNaming(OperationName(t), t);
    WithFeatureKeepsOthers(s, t.feature, t.enable);
  }

  /** A value that is no `enable_X` / `disable_X` name leaves the state unchanged. */
  lemma UnrecognisedOperationIsNoOp(s: State, m: Message)
    requires forall t :: ParameterValue(m, "operation") != Str(OperationName(t))
    ensures ProcessOperation(s, m) == s
  {
  }

  /** Processing the same operation twice is processing it once. */
  lemma ProcessOperationIdempotent(s: State, m: Message)
    ensures ProcessOperation(ProcessOperation(s, m), m) == ProcessOperation(s, m)
  {
    match DecodeOperation(ParameterValue(m, "operation"))
    case None =>
    case Some(Toggle(f, b)) =>
      WithFeatureIdempotent(s, f, b);
  }
}
