/**
 * The resource library (`components/ResourcesSection.tsx`): the module list
 * derived from the resources, filtering by module with the "all" sentinel,
 * adding a resource, submitting a suggestion, and a user's own suggestions
 * with their replied/pending status.
 */
module Resources {
  import opened Wrappers
  import opened Types
  import opened Text
  import opened Seqs

  /** The "all" sentinel of the module filter. */
  const All: string := "所有"
  /** Status of a suggestion with a reply. */
  const Replied: string := "已回复"
  /** Status of a suggestion still waiting for one. */
  const Pending: string := "待处理"
  /** The placeholder url of a resource added in the client. */
  const PlaceholderUrl: string := "#"

  /** The module of every resource, in list order. */
  function ModuleColumn(resources: seq<Resource>): (r: seq<string>)
    ensures |r| == |resources|
    ensures forall i :: 0 <= i < |resources| ==> r[i] == resources[i].moduleName
  {
    Map(resources, (x: Resource) => x.moduleName)
  }

  /** `Array.from(new Set(resources.map(r => r.module)))`: each module once. */
  function ResourceModules(resources: seq<Resource>): (r: seq<string>)
    ensures NoDuplicates(r)
    ensures forall j :: 0 <= j < |resources| ==> resources[j].moduleName in r
    ensures forall i :: 0 <= i < |r| ==> exists j :: 0 <= j < |resources| && resources[j].moduleName == r[i]
    ensures resources != [] ==> r != [] && r[0] == resources[0].moduleName
  {
    var names := ModuleColumn(resources);
    if resources == [] then Distinct(names)
    else DistinctHead(names); Distinct(names)
  }

  /** The module buttons appear in the order in which their modules first occur among the resources. */
  lemma ModulesInFirstOccurrenceOrder(resources: seq<Resource>)
    ensures forall i, j :: 0 <= i < j < |ResourceModules(resources)| ==>
      FirstIndex(ModuleColumn(resources), ResourceModules(resources)[i])
      < FirstIndex(ModuleColumn(resources), ResourceModules(resources)[j])
  {
    DistinctOrder(ModuleColumn(resources));
  }

  /** `modules[0] || '所有'`: the first module, unless there is none or it is the empty string. */
  function InitialModule(resources: seq<Resource>): (r: string)
    ensures resources != [] && resources[0].moduleName != "" ==> r == resources[0].moduleName
    ensures resources == [] || resources[0].moduleName == "" ==> r == All
  {
    var modules := ResourceModules(resources);
    if |modules| > 0 && modules[0] != "" then modules[0] else All
  }

  /** The resources shown for the selected module; the sentinel shows all of them. */
  function FilteredResources(resources: seq<Resource>, active: string): (r: seq<Resource>)
    ensures active == All ==> r == resources
    ensures active != All ==> forall i :: 0 <= i < |r| ==> r[i] in resources && r[i].moduleName == active
    ensures active != All ==> forall j :: 0 <= j < |resources| && resources[j].moduleName == active ==> resources[j] in r
  {
    if active == All then resources else Filter(resources, (x: Resource) => x.moduleName == active)
  }

  /** Filtering keeps the list order: it distributes over concatenation. */
  lemma FilteredResourcesConcat(front: seq<Resource>, back: seq<Resource>, active: string)
    ensures FilteredResources(front + back, active) == FilteredResources(front, active) + FilteredResources(back, active)
  {
    if active != All {
      FilterConcat(front, back, (x: Resource) => x.moduleName == active);
    }
  }

  /** The suggestions the given user submitted. */
  function MySuggestions(suggestions: seq<UserSuggestion>, userId: string): (r: seq<UserSuggestion>)
    ensures forall i :: 0 <= i < |r| ==> r[i] in suggestions && r[i].userId == userId
    ensures forall j :: 0 <= j < |suggestions| && suggestions[j].userId == userId ==> suggestions[j] in r
  {
    Filter(suggestions, (s: UserSuggestion) => s.userId == userId)
  }

  /** The status label of a suggestion. */
  function StatusLabel(s: UserSuggestion): (r: string)
    ensures r == Replied <==> HasFeedback(s)
    ensures r == Pending <==> !HasFeedback(s)
  {
    if HasFeedback(s) then Replied else Pending
  }

  /** `user.phone || '管理员'`: the phone, or the administrator placeholder when it is absent or empty. */
  function PhoneOrAdmin(phone: Option<string>): (r: string)
    ensures r != ""
    ensures phone.Some? && phone.value != "" ==> r == phone.value
    ensures phone.None? || phone.value == "" ==> r == AdminName
  {
    if phone.Some? && phone.value != "" then phone.value else AdminName
  }

  /** A resource added in the client: the time-based id, the placeholder url and today's date. */
  function NewResource(title: string, moduleName: string, now: nat, nowIso: string): Resource {
    Resource(NatToDecimal(now), title, moduleName, PlaceholderUrl, DateOf(nowIso))
  }

  /** A suggestion submitted in the client: owned by the user, without attachment or reply. */
  function NewSuggestion(user: User, text: string, now: nat, nowIso: string): UserSuggestion {
    UserSuggestion(NatToDecimal(now), user.id, PhoneOrAdmin(user.phone), text, None, None, DateOf(nowIso))
  }

  /** A resource added under the selected module, or under any module while all are shown, appears last in the list shown. */
  lemma AddedResourceShownLast(resources: seq<Resource>, active: string, x: Resource)
    requires active == All || x.moduleName == active
    ensures FilteredResources(resources + [x], active) == FilteredResources(resources, active) + [x]
  {
    FilteredResourcesConcat(resources, [x], active);
    if active != All {
      assert Filter([x], (y: Resource) => y.moduleName == active) == [x];
    }
  }

  /** A resource added under a module other than the selected one leaves the list shown as it was. */
  lemma HiddenResourceNotShown(resources: seq<Resource>, active: string, x: Resource)
    requires active != All && x.moduleName != active
    ensures FilteredResources(resources + [x], active) == FilteredResources(resources, active)
  {
    FilteredResourcesConcat(resources, [x], active);
    assert Filter([x], (y: Resource) => y.moduleName == active) == [];
  }

  /** A submitted suggestion joins the end of its author's own list, pending. */
  lemma SubmittedSuggestionIsMine(suggestions: seq<UserSuggestion>, user: User, text: string, now: nat, nowIso: string)
    ensures MySuggestions(suggestions + [NewSuggestion(user, text, now, nowIso)], user.id)
         == MySuggestions(suggestions, user.id) + [NewSuggestion(user, text, now, nowIso)]
    ensures StatusLabel(NewSuggestion(user, text, now, nowIso)) == Pending
  {
    var s := NewSuggestion(user, text, now, nowIso);
    FilterConcat(suggestions, [s], (x: UserSuggestion) => x.userId == user.id);
    assert Filter([s], (x: UserSuggestion) => x.userId == user.id) == [s];
  }

  /** The state of one mounted resource library for a signed-in user. */
  class ResourcesSection {
    var resources: seq<Resource>
    var suggestions: seq<UserSuggestion>
    const isAdmin: bool
    const user: User
    var activeModule: string
    var showAddResource: bool
    var showContactAdmin: bool
    var title: string
    var moduleField: string
    var suggestionText: string

    constructor (resources: seq<Resource>, suggestions: seq<UserSuggestion>, isAdmin: bool, user: User)
      ensures this.resources == resources && this.suggestions == suggestions
      ensures this.isAdmin == isAdmin && this.user == user
      ensures activeModule == InitialModule(resources)
      ensures !showAddResource && !showContactAdmin
      ensures title == "" && moduleField == "" && suggestionText == ""
    {
      this.resources := resources;
      this.suggestions := suggestions;
      this.isAdmin := isAdmin;
      this.user := user;
      activeModule := InitialModule(resources);
      showAddResource := false;
      showContactAdmin := false;
      title := "";
      moduleField := "";
      suggestionText := "";
    }

    /** The module buttons after the sentinel's. */
    function Modules(): seq<string>
      reads this
    {
      ResourceModules(resources)
    }

    /** The progress list of a user's own suggestions is shown to non-administrators who have any. */
    predicate ShowsProgress()
      reads this
    {
      !isAdmin && |Mine()| > 0
    }

    /** The resources on screen. */
    function Shown(): seq<Resource>
      reads this
    {
      FilteredResources(resources, activeModule)
    }

    /** The signed-in user's own suggestions. */
    function Mine(): seq<UserSuggestion>
      reads this
    {
      MySuggestions(suggestions, user.id)
    }

    /** Clicking a module button or the sentinel. */
    method SelectModule(m: string)
      requires m == All || m in Modules()
      modifies this`activeModule
      ensures activeModule == m
    {
      activeModule := m;
    }

    /** The administrator's add-resource dialog: appends one resource when title and module are filled in. */
    method HandleAddResource(now: nat, nowIso: string)
      modifies this`resources, this`showAddResource
      ensures old(title) == "" || old(moduleField) == "" ==>
        resources == old(resources) && showAddResource == old(showAddResource)
      ensures old(title) != "" && old(moduleField) != "" ==>
        resources == old(resources) + [NewResource(title, moduleField, now, nowIso)] && !showAddResource
      ensures old(title) != "" && old(moduleField) != "" && (activeModule == All || moduleField == activeModule) ==>
        Shown() == old(Shown()) + [NewResource(title, moduleField, now, nowIso)]
      ensures old(title) != "" && old(moduleField) != "" && activeModule != All && moduleField != activeModule ==>
        Shown() == old(Shown())
    {
      if title == "" || moduleField == "" {
        return;
      }
      var added := NewResource(title, moduleField, now, nowIso);
      if activeModule == All || moduleField == activeModule {
        AddedResourceShownLast(resources, activeModule, added);
      } else {
        HiddenResourceNotShown(resources, activeModule, added);
      }
      resources := resources + [added];
      showAddResource := false;
    }

    /** The contact-administrator dialog: appends one suggestion when there is text, then clears the text. */
    method HandleSubmitSuggestion(now: nat, nowIso: string)
      modifies this`suggestions, this`suggestionText, this`showContactAdmin
      ensures old(suggestionText) == "" ==>
        suggestions == old(suggestions) && suggestionText == "" && showContactAdmin == old(showContactAdmin)
      ensures old(suggestionText) != "" ==>
        suggestions == old(suggestions) + [NewSuggestion(user, old(suggestionText), now, nowIso)] &&
        suggestionText == "" && !showContactAdmin
      ensures old(suggestionText) != "" ==>
        Mine() == old(Mine()) + [NewSuggestion(user, old(suggestionText), now, nowIso)] &&
        ShowsProgress() == !isAdmin
    {
      if suggestionText == "" {
        return;
      }
      var submitted := NewSuggestion(user, suggestionText, now, nowIso);
      SubmittedSuggestionIsMine(suggestions, user, suggestionText, now, nowIso);
      suggestions := suggestions + [submitted];
      suggestionText := "";
      showContactAdmin := false;
    }
  }
}
