/** The custom-project dialog: a name and a description typed by the visitor,
    sent as a WhatsApp message when neither is blank, after which the fields
    are cleared and the dialog closes. */
module CustomProject {
  import opened Wrappers
  import opened Strings
  import opened Schema
  import WhatsApp

  const Intro: string := "*Novo Projeto Personalizado*\n\n*Nome:* "
  const DescriptionHeading: string := "\n\n*Descrição do Projeto:*\n"

  /** The message template, with the fields put in as typed (not trimmed): the
      intro, then the name, the description heading right after the name, and
      the description at the very end. */
  function ProjectMessage(name: string, description: string): (m: string)
    ensures |Intro| + |name| + |DescriptionHeading| + |description| == |m|
    ensures m[..|Intro|] == Intro && m[|Intro|..|Intro| + |name|] == name
    ensures m[|Intro| + |name|..|Intro| + |name| + |DescriptionHeading|] == DescriptionHeading
    ensures m[|m| - |description|..] == description
  {
    Intro + name + DescriptionHeading + description
  }

  /** A recipient can read both fields back from the message when the name is a
      single line: the name runs from the end of the intro to the next line
      break, and the description is everything after its heading. */
  lemma ProjectMessageFields(name: string, description: string)
    requires '\n' !in name
    ensures var m := ProjectMessage(name, description);
            var rest := m[|Intro|..];
            && |Intro| <= |m|
            && rest[..IndexOfOrEnd(rest, '\n')] == name
            && m[|Intro| + |name| + |DescriptionHeading|..] == description
  {
    var m := ProjectMessage(name, description);
    var rest := m[|Intro|..];
    assert rest == name + (DescriptionHeading + description);
    assert rest[|name|] == '\n';
    assert forall j :: 0 <= j < |name| ==> rest[j] == name[j];
    assert IndexOfOrEnd(rest, '\n') == |name|;
  }

  /** Two submissions with single-line names give the same message only when
      they have the same name and the same description. */
  lemma ProjectMessageInjective(name1: string, description1: string, name2: string, description2: string)
    requires '\n' !in name1 && '\n' !in name2
    requires ProjectMessage(name1, description1) == ProjectMessage(name2, description2)
    ensures name1 == name2 && description1 == description2
  {
    ProjectMessageFields(name1, description1);
    ProjectMessageFields(name2, description2);
  }

  /** The dialog does not apply the custom-project schema: it sends a one-letter
      name with a short description, which the schema refuses, and it refuses
      a name of two spaces, which the schema accepts. */
  lemma DialogIsNotTheSchema()
    ensures !IsBlank("A") && !IsBlank("Site")
            && ValidateCustomProject(CustomProjectForm("A", "Site")).Failure?
    ensures IsBlank("  ")
            && ValidateCustomProject(CustomProjectForm("  ", "Uma loja online")).Success?
  {
    assert "A"[0] == 'A';
    assert "Site"[0] == 'S';
  }

  /** `!s.trim()`. */
  method TrimsToEmpty(s: string) returns (empty: bool)
    ensures empty <==> IsBlank(s)
  {
    TrimEmptyIffBlank(s);
    empty := Trim(s) == "";
  }

  class CustomProjectDialog {
    /** The `open` prop, which `onOpenChange(false)` sets to false. */
    var open: bool
    var name: string
    var description: string

    /** Both fields start empty. */
    constructor (open: bool)
      ensures this.open == open && name == "" && description == ""
    {
      this.open := open;
      name := "";
      description := "";
    }

    /** `handleSubmit`: with a blank name or description nothing is sent and
        nothing changes; otherwise the link for the message is opened (the
        result), both fields are cleared and the dialog is closed. */
    method HandleSubmit(whatsappNumber: Option<string>) returns (link: Option<string>)
      modifies this
      ensures IsBlank(old(name)) || IsBlank(old(description)) ==> link.None? && unchanged(this)
      ensures !IsBlank(old(name)) && !IsBlank(old(description)) ==>
        && link == Some(WhatsApp.Url(WhatsApp.Phone(whatsappNumber), ProjectMessage(old(name), old(description))))
        && name == "" && description == "" && !open
    {
      var blankName := TrimsToEmpty(name);
      var blankDescription := TrimsToEmpty(description);
      if blankName || blankDescription {
        return None;
      }
      var message := ProjectMessage(name, description);
      var phone := WhatsApp.Phone(whatsappNumber);
      var url := WhatsApp.Url(phone, message);
      name := "";
      description := "";
      open := false;
      return Some(url);
    }
  }
}
