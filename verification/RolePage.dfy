// Saving a role config (`role_config_save` in src/routes/admin.rs).
module RolePage {
  import opened Wrappers
  import opened Json
  import RoleConfig
  import Conditions
  import Forms
  import Text
  import opened SyncModel

  /** What saving needs of a form; `schema` is absent if the stored JSON does not parse. */
  datatype FormInfo = FormInfo(guild: string, schema: Option<Forms.Schema>, isQuiz: bool)

  datatype SaveError = ReadOnly | NoSuchLink | MalformedFormId | NoSuchForm | Invalid(error: RoleConfig.ConfigError)

  /** The form a request binds, found by its parsed id within the guild of the link. */
  function BoundForm(forms: map<string, FormInfo>, uuid: string -> Option<string>, k: Key, body: RoleConfig.Body)
    : Result<Option<FormInfo>, SaveError>
  {
    match RoleConfig.FormIdOf(body.formId)
    case None => Ok(None)
    case Some(text) =>
      var id := uuid(text);
      if id.None? then Err(MalformedFormId)
      else if id.value in forms && forms[id.value].guild == k.guild then Ok(Some(forms[id.value]))
      else Err(NoSuchForm)
  }

  function Checked(h: Host, forms: map<string, FormInfo>, uuid: string -> Option<string>, k: Key, body: RoleConfig.Body)
    : Result<RoleConfig.Parsed, SaveError>
  {
    match BoundForm(forms, uuid, k, body)
    case Err(e) => Err(e)
    case Ok(form) =>
      var parsed := RoleConfig.ParseConfig(h, body, if form.Some? then form.value.schema else None, form.Some? && form.value.isQuiz);
      if parsed.Err? then Err(Invalid(parsed.error)) else Ok(parsed.value)
  }

  function LinkOf(p: RoleConfig.Parsed): Link {
    Link(p.formId, p.grantAny, Conditions.RowsOf(p.conditions))
  }

  class Page {
    var links: map<Key, Link>
    var forms: map<string, FormInfo>
    var permissions: map<string, string>
    var syncs: seq<Key>

    /** A refused save changes nothing; an accepted one rewrites the link, sets the guild's view
        permission only if the request carried one, and asks for a sync of the link. */
    method Save(h: Host, uuid: string -> Option<string>, k: Key, body: RoleConfig.Body, readOnly: bool)
      returns (r: Result<RoleConfig.Parsed, SaveError>)
      modifies `links, `permissions, `syncs
      ensures r == if readOnly then Err(ReadOnly) else if k !in old(links) then Err(NoSuchLink) else Checked(h, forms, uuid, k, body)
      ensures links == if r.Ok? then old(links)[k := LinkOf(r.value)] else old(links)
      ensures permissions ==
        if r.Ok? && r.value.viewPermission.Some? then old(permissions)[k.guild := r.value.viewPermission.value] else old(permissions)
      ensures syncs == if r.Ok? then old(syncs) + [k] else old(syncs)
    {
      if readOnly {
        return Err(ReadOnly);
      }
      if k !in links {
        return Err(NoSuchLink);
      }
      var schema: Option<Forms.Schema> := None;
      var isQuiz := false;
      var typed := RoleConfig.FormIdOf(body.formId);
      if typed.Some? {
        var id := uuid(typed.value);
        if id.None? {
          return Err(MalformedFormId);
        }
        if id.value !in forms || forms[id.value].guild != k.guild {
          return Err(NoSuchForm);
        }
        isQuiz := forms[id.value].isQuiz;
        schema := forms[id.value].schema;
      }
      var parsed := RoleConfig.ParseRoleConfig(h, body, schema, isQuiz);
      if parsed.Err? {
        return Err(Invalid(parsed.error));
      }
      links := links[k := LinkOf(parsed.value)];
      if parsed.value.viewPermission.Some? {
        permissions := permissions[k.guild := parsed.value.viewPermission.value];
      }
      syncs := syncs + [k];
      return Ok(parsed.value);
    }
  }

  /** The form table as the sync engine's registry of guilds, under the ids rows carry. */
  function HomeOf(forms: map<string, FormInfo>): map<string, string> {
    map id | id in forms :: forms[id].guild
  }

  /** A saved link keeps the guild rule exactly when the form id was typed the way rows spell
      it: the id is parsed for the lookup but stored as typed. */
  lemma SaveKeepsGuildRuleExactly(w: World, h: Host, forms: map<string, FormInfo>, uuid: string -> Option<string>, k: Key,
                                  body: RoleConfig.Body)
    requires WellFormed(w) && k in w.links && w.home == HomeOf(forms) && Checked(h, forms, uuid, k, body).Ok?
    requires forall id | id in forms :: uuid(id) == Some(id)
    ensures var p := Checked(h, forms, uuid, k, body).value;
      WellFormed(w.(links := w.links[k := LinkOf(p)])) <==> (p.formId.Some? ==> uuid(p.formId.value) == p.formId)
  {
  }

  const FORM_ID: string := "a3bb189e-8bf9-4888-9912-ace4e6543002"
  const FORM_ID_IN_CAPITALS: string := "A3BB189E-8BF9-4888-9912-ACE4E6543002"

  /** As the parser reads the two spellings of one form id. */
  function ParsedId(text: string): Option<string> {
    if text == FORM_ID || text == FORM_ID_IN_CAPITALS then Some(FORM_ID) else None
  }

  /** A save that breaks the guild rule: the id of the guild's only form, typed in capitals, is
      found, and the link is bound to an id no form has. */
  lemma CapitalsBreakTheGuildRule(h: Host, k: Key)
    ensures var (forms, body) := (map[FORM_ID := FormInfo(k.guild, None, false)],
                                  RoleConfig.Body(Some(FORM_ID_IN_CAPITALS), "any_submission", [], None));
      var w := World(h, HomeOf(forms), map[k := Link(None, false, [])], [], {}, {});
      && WellFormed(w) && Checked(h, forms, ParsedId, k, body).Ok?
      && !WellFormed(w.(links := w.links[k := LinkOf(Checked(h, forms, ParsedId, k, body).value)]))
  {
    var forms := map[FORM_ID := FormInfo(k.guild, None, false)];
    var body := RoleConfig.Body(Some(FORM_ID_IN_CAPITALS), "any_submission", [], None);
    var w := World(h, HomeOf(forms), map[k := Link(None, false, [])], [], {}, {});
    assert FORM_ID[0] == 'a' && FORM_ID_IN_CAPITALS[0] == 'A';
    Text.TrimFacts(FORM_ID_IN_CAPITALS);
    assert RoleConfig.FormIdOf(body.formId) == Some(FORM_ID_IN_CAPITALS);
    SaveKeepsGuildRuleExactly(w, h, forms, ParsedId, k, body);
  }

  /** Typed any other way, the link is bound to an id no response carries, and grants nobody. */
  lemma MisspeltBindingGrantsNobody(w: World, k: Key, optouts: set<string>)
    requires forall r | r in w.responses :: r.form in w.home
    requires FormBound(w, k) && w.links[k].form.value !in w.home
    ensures Desired(w, k, optouts) == {}
  {
  }
}
