/**
 * The records the client keeps in its state, one per interface of `types.ts`.
 * The field `module` is spelled `moduleName`, since `module` is a Dafny keyword.
 */
module Types {
  import opened Wrappers

  /** `UserRole.USER` and `UserRole.ADMIN`. */
  datatype UserRole = RoleUser | RoleAdmin

  /** The signed-in identity; `phone` is absent for the built-in administrator. */
  datatype User = User(id: string, username: string, phone: Option<string>, role: UserRole)

  datatype Post = Post(id: string, title: string, content: string, author: string,
                       link: Option<string>, date: string)

  datatype Resource = Resource(id: string, title: string, moduleName: string, url: string, date: string)

  /** A user's suggestion; `feedback` is the administrator's reply, absent until there is one. */
  datatype UserSuggestion = UserSuggestion(id: string, userId: string, phone: string, content: string,
                                           fileUrl: Option<string>, feedback: Option<string>, date: string)

  datatype Word = Word(id: string, english: string, chinese: string, pos: string, ipa: string,
                       moduleName: string)

  /** A word answered wrongly; `wordId` refers to a `Word` without owning it. */
  datatype MistakeRecord = MistakeRecord(id: string, wordId: string, english: string, chinese: string,
                                         date: string)

  /** The author name and phone placeholder the client writes for the administrator. */
  const AdminName: string := "管理员"

  /** A suggestion counts as answered when its `feedback` is present and not empty (JavaScript truthiness). */
  predicate HasFeedback(s: UserSuggestion) {
    s.feedback.Some? && s.feedback.value != ""
  }
}
