/** The plain notes store (src/stores/notes.ts): a text and the template it is reset to.
    Unlike the notes of the notes-and-peer-solution store, a new template always replaces
    the text. */
module Notes {

  /** The template the store starts from. */
  const DefaultTemplate: string :=
    "Definition des Problems:\n*\n*\n*\n\nAnalyse der Ursache:\n*\n*\n*\n\nVorschläge zur Lösung:\n*\n*\n*\n\nBewertung der Vorschläge:\n*\n*\n*\n"

  datatype State = State(text: string, template: string)

  /** The initial state: text and template both hold the default template. */
  function Init(): (r: State)
    ensures r.text == r.template == DefaultTemplate
  {
    State(DefaultTemplate, DefaultTemplate)
  }

  /** `resetNotes`: the text goes back to the template, which stays. */
  function ResetNotes(s: State): (r: State)
    ensures r.text == s.template && r.template == s.template
  {
    s.(text := s.template)
  }

  /** `setNotes`: overwrite the text and nothing else. */
  function SetNotes(s: State, notes: string): (r: State)
    ensures r.text == notes && r.template == s.template
  {
    s.(text := notes)
  }

  /** `setTemplate`: the template is replaced and the text reset to it, whatever the text
      held. */
  function SetTemplate(s: State, templateString: string): (r: State)
    ensures r.template == templateString && r.text == templateString
  {
    ResetNotes(s.(template := templateString))
  }

  // ---------------------------------------------------------------------------------
  // Properties

  /** Right after a template arrives, resetting the notes changes nothing. */
  lemma ResetAfterSetTemplateIsNoOp(s: State, t: string)
    ensures ResetNotes(SetTemplate(s, t)) == SetTemplate(s, t)
  {
  }

  /** A new template discards any edits: the result does not depend on the text before. */
  lemma SetTemplateDiscardsEdits(s: State, notes: string, t: string)
    ensures SetTemplate(SetNotes(s, notes), t) == SetTemplate(s, t)
  {
  }

  /** Resetting twice is resetting once. */
  lemma ResetNotesIdempotent(s: State)
    ensures ResetNotes(ResetNotes(s)) == ResetNotes(s)
  {
  }
}
