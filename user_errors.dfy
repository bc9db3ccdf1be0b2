/**
 * src/domain/user/errors/index.ts: `UserNotFoundError`, a plain `Error` subclass (not an
 * `AppError`) whose message names the id when a truthy one is given.
 */
module UserErrors {
  import opened Wrappers
  import opened Strings
  import opened AppErrors

  const IdPrefix := "ID: "
  const IdSuffix := "のユーザーが見つかりません"
  const DefaultMessage := "ユーザーが見つかりません"

  /** `new UserNotFoundError(userId)`; None when no id is passed. */
  function UserNotFoundError(userId: Option<string>): (e: PlainError)
    ensures e.name == "UserNotFoundError"
  {
    var message := if userId.Some? && userId.value != "" then IdPrefix + userId.value + IdSuffix
                   else DefaultMessage;
    PlainError("UserNotFoundError", message)
  }

  /**
   * A non-empty id gives `ID: <id>` followed by the not-found text; no id and the empty
   * id (falsy) give the default message. The default message does not start with "ID: ",
   * so the message tells which case applied, and the id can be read back from it.
   */
  lemma MessageSelection(userId: Option<string>)
    ensures var m := UserNotFoundError(userId).message;
      && (userId.Some? && userId.value != "" ==>
            && StartsWith(m, IdPrefix) && EndsWith(m, IdSuffix)
            && m[|IdPrefix|..|m| - |IdSuffix|] == userId.value)
      && (userId.None? || userId == Some("") ==> m == DefaultMessage && !StartsWith(m, IdPrefix))
  {
    var m := UserNotFoundError(userId).message;
    assert DefaultMessage[0] != IdPrefix[0];
    if userId.Some? && userId.value != "" {
      assert m == IdPrefix + userId.value + IdSuffix;
      assert m[..|IdPrefix|] == IdPrefix;
      assert m[|m| - |IdSuffix|..] == IdSuffix;
    }
  }

  /** Different non-empty ids give different messages. */
  lemma MessageInjective(a: string, b: string)
    requires a != "" && b != ""
    ensures UserNotFoundError(Some(a)).message == UserNotFoundError(Some(b)).message <==> a == b
  {
    MessageSelection(Some(a));
    MessageSelection(Some(b));
  }
}
