/**
 * The application shell (`App.tsx`): the session gate, the tab bar and the view
 * each tab renders, and the mapping of the posts and resources the server sends
 * into the client's records.
 */
module App {
  import opened Wrappers
  import opened Types
  import opened Text
  import opened Seqs

  const ForumTab: string := "forum"
  const ResourcesTab: string := "resources"
  const QuizTab: string := "quiz"
  const AdminTab: string := "admin"

  /** A post as the server sends it: an integer id and an optional ISO timestamp. */
  datatype WirePost = WirePost(id: nat, title: string, content: string, author: string,
                               link: Option<string>, createdAt: Option<string>)

  /** A resource as the server sends it; the download path is `filePath`. */
  datatype WireResource = WireResource(id: nat, title: string, moduleName: string, filePath: string,
                                       createdAt: Option<string>)

  /** `created_at ? created_at.split('T')[0] : ''`. */
  function WireDate(createdAt: Option<string>): (r: string)
    ensures createdAt.None? ==> r == ""
    ensures createdAt.Some? ==> |r| <= |createdAt.value| && r == createdAt.value[..|r|] && 'T' !in r
    ensures createdAt.Some? && |r| < |createdAt.value| ==> createdAt.value[|r|] == 'T'
  {
    if createdAt.Some? && createdAt.value != "" then DateOf(createdAt.value) else ""
  }

  function PostFromWire(w: WirePost): Post {
    Post(NatToDecimal(w.id), w.title, w.content, w.author, w.link, WireDate(w.createdAt))
  }

  function ResourceFromWire(w: WireResource): Resource {
    Resource(NatToDecimal(w.id), w.title, w.moduleName, w.filePath, WireDate(w.createdAt))
  }

  /** The posts list after a fetch: one record per wire post, in the same order. */
  function MapPosts(wire: seq<WirePost>): (r: seq<Post>)
    ensures |r| == |wire|
    ensures forall i :: 0 <= i < |wire| ==>
      r[i].id == NatToDecimal(wire[i].id) && DecimalValue(r[i].id) == wire[i].id && r[i].title == wire[i].title && r[i].content == wire[i].content &&
      r[i].author == wire[i].author && r[i].link == wire[i].link && r[i].date == WireDate(wire[i].createdAt)
  {
    forall n: nat ensures DecimalValue(NatToDecimal(n)) == n {
      DecimalRoundTrip(n);
    }
    Map(wire, PostFromWire)
  }

  /** The resources list after a fetch: one record per wire resource, in the same order. */
  function MapResources(wire: seq<WireResource>): (r: seq<Resource>)
    ensures |r| == |wire|
    ensures forall i :: 0 <= i < |wire| ==>
      r[i].id == NatToDecimal(wire[i].id) && DecimalValue(r[i].id) == wire[i].id && r[i].title == wire[i].title &&
      r[i].moduleName == wire[i].moduleName && r[i].url == wire[i].filePath &&
      r[i].date == WireDate(wire[i].createdAt)
  {
    forall n: nat ensures DecimalValue(NatToDecimal(n)) == n {
      DecimalRoundTrip(n);
    }
    Map(wire, ResourceFromWire)
  }

  /** Posts with distinct server ids keep distinct client ids. */
  lemma MapPostsKeepsUniqueIds(wire: seq<WirePost>)
    requires UniqueKeys(wire, (w: WirePost) => w.id)
    ensures UniqueKeys(MapPosts(wire), (p: Post) => p.id)
  {
    var r := MapPosts(wire);
    forall i, j | 0 <= i < j < |r| ensures r[i].id != r[j].id {
      NatToDecimalInjective(wire[i].id, wire[j].id);
      assert r[i] == PostFromWire(wire[i]) && r[j] == PostFromWire(wire[j]);
    }
  }

  /** Resources with distinct server ids keep distinct client ids. */
  lemma MapResourcesKeepsUniqueIds(wire: seq<WireResource>)
    requires UniqueKeys(wire, (w: WireResource) => w.id)
    ensures UniqueKeys(MapResources(wire), (x: Resource) => x.id)
  {
    var r := MapResources(wire);
    forall i, j | 0 <= i < j < |r| ensures r[i].id != r[j].id {
      NatToDecimalInjective(wire[i].id, wire[j].id);
      assert r[i] == ResourceFromWire(wire[i]) && r[j] == ResourceFromWire(wire[j]);
    }
  }

  /** The quote after the quote request: replaced only by non-empty content. */
  function FetchedQuote(current: string, content: Option<string>): (r: string)
    ensures content.Some? && content.value != "" ==> r == content.value
    ensures content.None? || content.value == "" ==> r == current
  {
    if content.Some? && content.value != "" then content.value else current
  }

  /** The tab bar: three tabs for everyone, the admin tab only for administrators. */
  function TabButtons(isAdmin: bool): (r: seq<string>)
    ensures |r| == if isAdmin then 4 else 3
    ensures r[..3] == [ForumTab, ResourcesTab, QuizTab]
    ensures AdminTab in r <==> isAdmin
  {
    [ForumTab, ResourcesTab, QuizTab] + if isAdmin then [AdminTab] else []
  }

  datatype Feature = ForumView | ResourcesView | QuizView | AdminView

  /** What the shell shows: the login form, or the tab bar and the feature views below it. */
  datatype Screen = LoginScreen | MainScreen(buttons: seq<string>, views: seq<Feature>)

  /** The page for a session and a selected tab; each view is rendered under its own condition, in page order. */
  function Render(user: Option<User>, tab: string): (r: Screen)
    ensures r.LoginScreen? <==> user.None?
    ensures r.MainScreen? ==> r.buttons == TabButtons(user.value.role == RoleAdmin)
    ensures r.MainScreen? ==> |r.views| <= 1
    ensures r.MainScreen? ==> (ForumView in r.views <==> tab == ForumTab)
    ensures r.MainScreen? ==> (ResourcesView in r.views <==> tab == ResourcesTab)
    ensures r.MainScreen? ==> (QuizView in r.views <==> tab == QuizTab)
    ensures r.MainScreen? ==> (AdminView in r.views <==> tab == AdminTab && user.value.role == RoleAdmin)
  {
    if user.None? then LoginScreen
    else
      var isAdmin := user.value.role == RoleAdmin;
      MainScreen(TabButtons(isAdmin),
                 (if tab == ForumTab then [ForumView] else []) +
                 (if tab == ResourcesTab then [ResourcesView] else []) +
                 (if tab == QuizTab then [QuizView] else []) +
                 (if tab == AdminTab && isAdmin then [AdminView] else []))
  }

  /** Every tab a user can click renders exactly one view. */
  lemma ClickableTabRendersOneView(u: User, tab: string)
    requires tab in TabButtons(u.role == RoleAdmin)
    ensures Render(Some(u), tab).views != []
  {
    var b := TabButtons(u.role == RoleAdmin);
    var k :| 0 <= k < |b| && b[k] == tab;
    if k < 3 {
      assert b[k] == b[..3][k];
    }
  }

  /** The shell's own state: the session, the selected tab and the lists it fetches. */
  class Shell {
    var user: Option<User>
    var activeTab: string
    var posts: seq<Post>
    var resources: seq<Resource>
    var quote: string

    /** Starts from the stored session and quote, on the forum tab, with empty lists until the fetches answer. */
    constructor (storedUser: Option<User>, storedQuote: string)
      ensures user == storedUser && activeTab == ForumTab
      ensures posts == [] && resources == [] && quote == storedQuote
    {
      user := storedUser;
      activeTab := ForumTab;
      posts := [];
      resources := [];
      quote := storedQuote;
    }

    function Page(): Screen
      reads this
    {
      Render(user, activeTab)
    }

    /** `onLogin` from the login form. */
    method SignIn(u: User)
      requires user.None?
      modifies this`user
      ensures user == Some(u) && activeTab == old(activeTab)
    {
      user := Some(u);
    }

    /** The logout button: the session ends and the selected tab stays as it was. */
    method Logout()
      requires user.Some?
      modifies this`user
      ensures user.None? && activeTab == old(activeTab)
    {
      user := None;
    }

    /** Logout that also resets the tab, so the next session starts on the forum tab. */
    method LogoutToForum()
      requires user.Some?
      modifies this`user, this`activeTab
      ensures user.None? && activeTab == ForumTab
      ensures forall u: User :: Render(Some(u), activeTab).views == [ForumView]
    {
      user := None;
      activeTab := ForumTab;
    }

    /** A click on a button of the tab bar. */
    method ClickTab(tab: string)
      requires user.Some? && tab in TabButtons(user.value.role == RoleAdmin)
      modifies this`activeTab
      ensures activeTab == tab && Page().views != []
    {
      activeTab := tab;
      ClickableTabRendersOneView(user.value, tab);
    }

    /** The posts request answered. */
    method ReceivePosts(wire: seq<WirePost>)
      modifies this`posts
      ensures posts == MapPosts(wire)
    {
      posts := MapPosts(wire);
    }

    /** The resources request answered. */
    method ReceiveResources(wire: seq<WireResource>)
      modifies this`resources
      ensures resources == MapResources(wire)
    {
      resources := MapResources(wire);
    }

    /** The quote request answered. */
    method ReceiveQuote(content: Option<string>)
      modifies this`quote
      ensures quote == FetchedQuote(old(quote), content)
    {
      quote := FetchedQuote(quote, content);
    }
  }

  /**
   * As written, an administrator who leaves the admin tab selected and logs out hands the next,
   * non-administrator session a page with no view at all; with the resetting logout that
   * session starts on the forum.
   */
  lemma StaleAdminTabAfterRelogin(admin: User, next: User)
    requires admin.role == RoleAdmin && next.role == RoleUser
    ensures Render(Some(admin), AdminTab).views == [AdminView]
    ensures Render(Some(next), AdminTab).views == []
    ensures Render(Some(next), ForumTab).views == [ForumView]
  {
  }

  /**
   * The whole sequence on a shell: an administrator signs in, opens the admin tab and logs out,
   * then `next` signs in. With `Logout` the page shows nothing; with `LogoutToForum` it shows the forum.
   */
  method AdminThenUserSession(admin: User, next: User) returns (asWritten: Shell, corrected: Shell)
    requires admin.role == RoleAdmin && next.role == RoleUser
    ensures asWritten.user == Some(next) && asWritten.Page().MainScreen? && asWritten.Page().views == []
    ensures corrected.user == Some(next) && corrected.Page().views == [ForumView]
  {
    asWritten := new Shell(None, "");
    asWritten.SignIn(admin);
    asWritten.ClickTab(AdminTab);
    asWritten.Logout();
    asWritten.SignIn(next);
    StaleAdminTabAfterRelogin(admin, next);

    corrected := new Shell(None, "");
    corrected.SignIn(admin);
    corrected.ClickTab(AdminTab);
    corrected.LogoutToForum();
    corrected.SignIn(next);
  }
}
