/**
 * The discussion forum (`components/Forum.tsx`): the daily quote and its edit box,
 * and creating a post, which sends the post's fields as query parameters and
 * prepends the post locally only when the server answers with a success status.
 */
module Forum {
  import opened Wrappers
  import opened Types
  import opened Text

  /** How the post request ended: an HTTP status, or a request that threw. */
  datatype Response = Responded(status: int) | NetworkError

  /** `res.ok`: a status in 200..299. */
  predicate IsOk(res: Response) {
    res.Responded? && 200 <= res.status <= 299
  }

  /** The query parameters of the post request, in the order they are written. */
  function PostParams(title: string, content: string, link: string): (r: seq<(string, string)>)
    ensures |r| == if link == "" then 3 else 4
    ensures r[0] == ("title", title) && r[1] == ("content", content) && r[2] == ("author", AdminName)
    ensures link != "" ==> r[3] == ("link", link)
  {
    var base := [("title", title), ("content", content), ("author", AdminName)];
    if link != "" then base + [("link", link)] else base
  }

  /** The value of the first parameter named `key`, as `URLSearchParams.get` finds it: no earlier parameter has that name. */
  function Lookup(params: seq<(string, string)>, key: string): (r: Option<string>)
    ensures r.None? <==> forall i :: 0 <= i < |params| ==> params[i].0 != key
    ensures r.Some? ==>
      exists i :: 0 <= i < |params| && params[i] == (key, r.value) && (forall j :: 0 <= j < i ==> params[j].0 != key)
  {
    if params == [] then None
    else if params[0].0 == key then Some(params[0].1)
    else
      var r := Lookup(params[1..], key);
      if r.Some? then
        var i :| 0 <= i < |params| - 1 && params[1..][i] == (key, r.value) &&
          (forall j :: 0 <= j < i ==> params[1..][j].0 != key);
        assert params[i + 1] == (key, r.value);
        assert forall j :: 0 <= j < i + 1 ==> params[j].0 != key by {
          forall j | 0 <= j < i + 1 ensures params[j].0 != key {
            if j > 0 {
              assert params[j] == params[1..][j - 1];
            }
          }
        }
        r
      else r
  }

  /** The post the client shows after a successful request; an empty link is stored as absent. */
  function NewPost(title: string, content: string, link: string, now: nat, nowIso: string): Post {
    Post(NatToDecimal(now), title, content, AdminName, if link != "" then Some(link) else None, DateOf(nowIso))
  }

  /** The request and the post shown locally agree on every field the request carries. */
  lemma {:induction false} RequestMatchesPost(title: string, content: string, link: string, now: nat, nowIso: string)
    ensures Lookup(PostParams(title, content, link), "title") == Some(NewPost(title, content, link, now, nowIso).title)
    ensures Lookup(PostParams(title, content, link), "content") == Some(NewPost(title, content, link, now, nowIso).content)
    ensures Lookup(PostParams(title, content, link), "author") == Some(NewPost(title, content, link, now, nowIso).author)
    ensures Lookup(PostParams(title, content, link), "link") == NewPost(title, content, link, now, nowIso).link
  {
    var p := PostParams(title, content, link);
    assert p[1..][1..][1..] == p[3..];
    if link == "" {
      assert p[3..] == [];
    } else {
      assert p[3..][0] == ("link", link);
    }
  }

  /** The state of the mounted forum. `quote` is the application's quote, edited through this component. */
  class ForumView {
    var posts: seq<Post>
    var quote: string
    const isAdmin: bool
    var isEditingQuote: bool
    var tempQuote: string
    var showPostModal: bool
    var newTitle: string
    var newContent: string
    var newLink: string

    constructor (posts: seq<Post>, quote: string, isAdmin: bool)
      ensures this.posts == posts && this.quote == quote && this.isAdmin == isAdmin
      ensures !isEditingQuote && tempQuote == quote && !showPostModal
      ensures newTitle == "" && newContent == "" && newLink == ""
    {
      this.posts := posts;
      this.quote := quote;
      this.isAdmin := isAdmin;
      isEditingQuote := false;
      tempQuote := quote;
      showPostModal := false;
      newTitle := "";
      newContent := "";
      newLink := "";
    }

    /** The pencil button, shown to administrators, opens the quote editor on the last draft. */
    method StartEditQuote()
      requires isAdmin && !isEditingQuote
      modifies this`isEditingQuote
      ensures isEditingQuote
    {
      isEditingQuote := true;
    }

    /** Typing in the quote editor. */
    method EditQuote(text: string)
      requires isEditingQuote
      modifies this`tempQuote
      ensures tempQuote == text
    {
      tempQuote := text;
    }

    /** The save button: the draft becomes the quote and the editor closes. */
    method SaveQuote()
      modifies this`quote, this`isEditingQuote
      ensures quote == tempQuote && !isEditingQuote
    {
      quote := tempQuote;
      isEditingQuote := false;
    }

    /** The new-post button, shown to administrators. */
    method OpenPostModal()
      requires isAdmin
      modifies this`showPostModal
      ensures showPostModal
    {
      showPostModal := true;
    }

    /**
     * Publishing the form. Without a title or content nothing is sent (`request` is None);
     * otherwise the parameters are sent and `response` is how the request ended.
     */
    method HandleCreatePost(response: Response, now: nat, nowIso: string) returns (request: Option<seq<(string, string)>>)
      modifies this`posts, this`newTitle, this`newContent, this`newLink, this`showPostModal
      ensures request.None? <==> old(newTitle) == "" || old(newContent) == ""
      ensures request.Some? ==> request.value == PostParams(old(newTitle), old(newContent), old(newLink))
      ensures request.Some? && IsOk(response) ==>
        posts == [NewPost(old(newTitle), old(newContent), old(newLink), now, nowIso)] + old(posts) &&
        newTitle == "" && newContent == "" && newLink == "" && !showPostModal
      ensures request.None? || !IsOk(response) ==>
        posts == old(posts) && newTitle == old(newTitle) && newContent == old(newContent) &&
        newLink == old(newLink) && showPostModal == old(showPostModal)
    {
      if newTitle == "" || newContent == "" {
        return None;
      }
      request := Some(PostParams(newTitle, newContent, newLink));
      if IsOk(response) {
        var post := NewPost(newTitle, newContent, newLink, now, nowIso);
        posts := [post] + posts;
        newTitle := "";
        newContent := "";
        newLink := "";
        showPostModal := false;
      }
    }
  }
}
