/** The store behind the notes and peer-solution view (src/stores/notesAndPeerSolution.ts):
    the learner's notes, the peer solution shown beside them, and the template the notes
    are reset to. Notes the learner has edited are never overwritten by the assistance
    system; only `setNotes` and `resetNotes` replace them unconditionally. */
module NotesAndPeerSolution {

  /** The template every field starts from, until the assistance system sends its own. */
  const DefaultTemplate: string :=
    "Anforderungen des Szenarios:\n*\n*\n*\n\nRanking der Cloud-Provider:\n*\n*\n*\n\nAuswahl des am besten geeigneten Providers:\n*\n*\n*\n\nBegründung der Auswahl:\n*\n*\n*\n"

  datatype State = State(notes: string, peerSolution: string, template: string)

  /** The notes still hold a template, the current one or the default: the learner has not
      written anything of their own (the test of `setSolutionResponse`). */
  predicate NotesUnmodified(s: State)
  {
    s.notes == s.template || s.notes == DefaultTemplate
  }

  /** The initial state: all three fields hold the default template, so the notes count
      as unmodified. */
  function Init(): (r: State)
    ensures r.notes == r.peerSolution == r.template == DefaultTemplate
    ensures NotesUnmodified(r)
  {
    State(DefaultTemplate, DefaultTemplate, DefaultTemplate)
  }

  /** `resetNotes`: the notes go back to the current template; after that they count as
      unmodified. */
  function ResetNotes(s: State): (r: State)
    ensures r.notes == s.template
    ensures r.peerSolution == s.peerSolution && r.template == s.template
    ensures NotesUnmodified(r)
  {
    s.(notes := s.template)
  }

  /** `setNotes`: overwrite the notes and nothing else. */
  function SetNotes(s: State, notes: string): (r: State)
    ensures r.notes == notes
    ensures r.peerSolution == s.peerSolution && r.template == s.template
  {
    s.(notes := notes)
  }

  /** `setPeerSolution`: overwrite the peer solution and nothing else. */
  function SetPeerSolution(s: State, peerSolution: string): (r: State)
    ensures r.peerSolution == peerSolution
    ensures r.notes == s.notes && r.template == s.template
  {
    s.(peerSolution := peerSolution)
  }

  /** `setSolutionResponse`: the response replaces the notes exactly when they are still
      unmodified; otherwise nothing changes. The template and the peer solution never
      change. */
  function SetSolutionResponse(s: State, solutionResponse: string): (r: State)
    ensures r.peerSolution == s.peerSolution && r.template == s.template
    ensures NotesUnmodified(s) ==> r.notes == solutionResponse
    ensures !NotesUnmodified(s) ==> r == s
  {
    if s.notes == s.template || s.notes == DefaultTemplate then SetNotes(s, solutionResponse)
    else s
  }

  /** `setTemplate`: the template is always replaced; the notes follow it exactly when they
      still held the default template, and are otherwise kept. The peer solution never
      changes. */
  function SetTemplate(s: State, templateString: string): (r: State)
    ensures r.template == templateString
    ensures r.peerSolution == s.peerSolution
    ensures r.notes == (if s.notes == DefaultTemplate then templateString else s.notes)
  {
    var s1 := s.(template := templateString);
    if s1.notes == DefaultTemplate then ResetNotes(s1) else s1
  }

  // ---------------------------------------------------------------------------------
  // Properties

  /** Notes the learner has written (neither template) survive any solution response. */
  lemma EditedNotesSurviveSolutionResponse(s: State, notes: string, response: string)
    requires notes != s.template && notes != DefaultTemplate
    ensures SetSolutionResponse(SetNotes(s, notes), response).notes == notes
  {
  }

  /** A solution response that differs from both templates is itself kept: a second
      response cannot overwrite it. */
  lemma FirstSolutionResponseWins(s: State, first: string, second: string)
    requires NotesUnmodified(s)
    requires first != s.template && first != DefaultTemplate
    ensures SetSolutionResponse(SetSolutionResponse(s, first), second).notes == first
  {
  }

  /** After `resetNotes`, a solution response is always taken over. */
  lemma ResetNotesAdmitsSolutionResponse(s: State, response: string)
    ensures SetSolutionResponse(ResetNotes(s), response).notes == response
  {
  }

  /** Resetting discards whatever the notes held before. */
  lemma ResetNotesDiscardsEdits(s: State, notes: string)
    ensures ResetNotes(SetNotes(s, notes)) == ResetNotes(s)
  {
  }

  /** Notes that still show the default template are switched to a new template, and then
      count as unmodified. */
  lemma SetTemplateLoadsIntoDefaultNotes(s: State, t: string)
    requires s.notes == DefaultTemplate
    ensures SetTemplate(s, t).notes == t
    ensures NotesUnmodified(SetTemplate(s, t))
  {
  }

  /** A template sent to notes the learner has already edited (for example after logging
      in again) leaves them as they are, and a later solution response cannot replace them
      unless they happen to equal the new template. */
  lemma SetTemplateKeepsEditedNotes(s: State, t: string, response: string)
    requires s.notes != DefaultTemplate && s.notes != t
    ensures SetTemplate(s, t).notes == s.notes
    ensures SetSolutionResponse(SetTemplate(s, t), response) == SetTemplate(s, t)
  {
  }

  /** The peer solution is independent of the notes: setting it commutes with a solution
      response and with a new template. */
  lemma PeerSolutionIndependentOfNotes(s: State, peer: string, response: string, t: string)
    ensures SetSolutionResponse(SetPeerSolution(s, peer), response) == SetPeerSolution(SetSolutionResponse(s, response), peer)
    ensures SetTemplate(SetPeerSolution(s, peer), t) == SetPeerSolution(SetTemplate(s, t), peer)
  {
  }

  /** The session the store is built for: the template arrives, then the solution
      response; the notes end up holding the response, the template is kept. */
  lemma TemplateThenSolutionResponse(t: string, response: string)
    ensures var r := SetSolutionResponse(SetTemplate(Init(), t), response);
            r.notes == response && r.template == t && r.peerSolution == DefaultTemplate
  {
  }
}
