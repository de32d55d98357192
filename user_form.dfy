/** The user form: four fields, copied from the user being edited or cleared. */
module UserForm {
  import opened Wrappers
  import opened Seqs
  import opened UserTable

  /** The options of the team selector, in the order offered. */
  const TeamOptions: seq<string> := [
    "Recursos Humanos (RH)",
    "Vendas",
    "Marketing",
    "Desenvolvimento de Produto",
    "Suporte ao Cliente",
    "TI (Tecnologia da Informação)",
    "Finanças",
    "Jurídico e Compliance"
  ]

  /** Eight distinct teams. */
  lemma TeamOptionsDistinct()
    ensures |TeamOptions| == 8 && NoDuplicates(TeamOptions)
  {
  }

  const EmptyDraft: UserDraft := UserDraft("", "", "", "")

  /** Every required field holds a value: the browser lets the form submit. */
  predicate Complete(d: UserDraft)
    ensures Complete(d) ==> d != EmptyDraft
  {
    d.email != "" && d.name != "" && d.role != "" && d.team != ""
  }

  /**
   * The values the effect on the `user` prop sets: the user's own email,
   * name, role and team, or four empty strings when there is no user.
   */
  function ResetFields(user: Option<User>): (d: UserDraft)
    ensures user.Some? ==> d == DraftOf(user.value)
    ensures user.None? ==> d.email == "" && d.name == "" && d.role == "" && d.team == ""
  {
    match user
    case Some(u) => UserDraft(u.email, u.name, u.role, u.team)
    case None => EmptyDraft
  }

  /**
   * Submitting the form unchanged after opening it on a user, and merging
   * that draft into the user as the page does, gives back the same user.
   */
  lemma UnchangedEditIsIdentity(u: User)
    ensures WithId(u.id, ResetFields(Some(u))) == u
  {
  }

  class Form {
    var email: string
    var name: string
    var role: string
    var team: string

    function Fields(): UserDraft
      reads this
    {
      UserDraft(email, name, role, team)
    }

    /** The `useState('')` initialisers; the effect runs after this. */
    constructor ()
      ensures Fields() == EmptyDraft
    {
      email, name, role, team := "", "", "", "";
    }

    /** The effect on the `user` prop. */
    method Reset(user: Option<User>)
      modifies this
      ensures Fields() == ResetFields(user)
    {
      if user.Some? {
        email := user.value.email;
        name := user.value.name;
        role := user.value.role;
        team := user.value.team;
      } else {
        email := "";
        name := "";
        role := "";
        team := "";
      }
    }

    /**
     * Pressing the submit button. Every field is `required`, so the browser
     * blocks the submit event while any of them is empty; otherwise
     * `handleSubmit` emits `{ email, name, role, team }`, with no id.
     */
    method HandleSubmit() returns (draft: Option<UserDraft>)
      ensures draft.Some? <==> Complete(Fields())
      ensures draft.Some? ==> draft.value == Fields()
    {
      if email != "" && name != "" && role != "" && team != "" {
        draft := Some(UserDraft(email, name, role, team));
      } else {
        draft := None;
      }
    }

    method SetEmail(v: string)
      modifies this
      ensures Fields() == old(Fields()).(email := v)
    {
      email := v;
    }

    method SetName(v: string)
      modifies this
      ensures Fields() == old(Fields()).(name := v)
    {
      name := v;
    }

    method SetRole(v: string)
      modifies this
      ensures Fields() == old(Fields()).(role := v)
    {
      role := v;
    }

    method SetTeam(v: string)
      modifies this
      ensures Fields() == old(Fields()).(team := v)
    {
      team := v;
    }
  }
}
