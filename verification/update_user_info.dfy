/** The profile update page's submit handler: the payload carries only the
    fields that differ from the signed-in user's, the update is sent only
    for a signed-in user, and the loading flag follows the handler's control
    flow. */
module UpdateUserInfo {
  import opened Wrappers
  import opened FormData
  import opened Users

  /** The submitted form: the picture input's file list may be empty. */
  datatype UpdateForm = UpdateForm(username: string, skillLevel: string, profileImg: seq<File>)

  /** The field names an update payload may carry. */
  const UpdateFieldNames := {"username", "skillLevel", "profile_img"}

  /** `user?.username != data.username`: with no user the left side is
      undefined, which differs from every string. */
  predicate UsernameChanged(user: Option<User>, data: UpdateForm) {
    user.None? || user.value.username != data.username
  }

  /** `user && user.skillLevel != data.skillLevel`. */
  predicate SkillLevelChanged(user: Option<User>, data: UpdateForm) {
    user.Some? && user.value.skillLevel != Some(data.skillLevel)
  }

  /** A file was chosen and `user?.profile_img !== file.name`. */
  predicate PictureChanged(user: Option<User>, data: UpdateForm) {
    |data.profileImg| > 0 && (user.None? || user.value.profileImg != data.profileImg[0].name)
  }

  /** The payload built by the submit handler. */
  function ChangedFields(user: Option<User>, data: UpdateForm): (form: Form)
    ensures forall k :: 0 <= k < |form| ==> form[k].name in UpdateFieldNames
    ensures |form| <= 3
  {
    (if UsernameChanged(user, data) then [Field("username", Text(data.username))] else [])
    + (if SkillLevelChanged(user, data) then [Field("skillLevel", Text(data.skillLevel))] else [])
    + (if PictureChanged(user, data) then [Field("profile_img", Upload(data.profileImg[0]))] else [])
  }

  /** The values of the payload under one name, part by part. */
  lemma ChangedValues(user: Option<User>, data: UpdateForm, name: string)
    ensures Values(ChangedFields(user, data), name)
            == (if UsernameChanged(user, data) then Values([Field("username", Text(data.username))], name) else [])
            + (if SkillLevelChanged(user, data) then Values([Field("skillLevel", Text(data.skillLevel))], name) else [])
            + (if PictureChanged(user, data) then Values([Field("profile_img", Upload(data.profileImg[0]))], name) else [])
  {
    var u: Form := if UsernameChanged(user, data) then [Field("username", Text(data.username))] else [];
    var s: Form := if SkillLevelChanged(user, data) then [Field("skillLevel", Text(data.skillLevel))] else [];
    var p: Form := if PictureChanged(user, data) then [Field("profile_img", Upload(data.profileImg[0]))] else [];
    assert ChangedFields(user, data) == u + s + p;
    ValuesAppend(u + s, p, name);
    ValuesAppend(u, s, name);
  }

  /** Each field is sent, once, exactly when it changed; nothing else (the
      email in particular) is ever sent. */
  lemma ChangedFieldsExact(user: Option<User>, data: UpdateForm, other: string)
    requires other !in UpdateFieldNames
    ensures var form := ChangedFields(user, data);
            && Values(form, "username") == (if UsernameChanged(user, data) then [Text(data.username)] else [])
            && Values(form, "skillLevel") == (if SkillLevelChanged(user, data) then [Text(data.skillLevel)] else [])
            && Values(form, "profile_img") == (if PictureChanged(user, data) then [Upload(data.profileImg[0])] else [])
            && Values(form, other) == []
  {
    ChangedValues(user, data, "username");
    ChangedValues(user, data, "skillLevel");
    ChangedValues(user, data, "profile_img");
    ValuesOutside(ChangedFields(user, data), UpdateFieldNames, other);
  }

  /** Submitting the user's own values, with no new picture or the same
      picture name, sends an empty payload. */
  lemma UnchangedFormIsEmpty(user: User, data: UpdateForm)
    requires data.username == user.username && user.skillLevel == Some(data.skillLevel)
    requires |data.profileImg| == 0 || data.profileImg[0].name == user.profileImg
    ensures ChangedFields(Some(user), data) == []
  {
  }

  /** The call made to the user service. */
  datatype UpdateCall = UpdateCall(userId: string, payload: Form)

  /** What one submit does: the update call (if any), whether "changes saved"
      is shown, and the successive values the loading flag takes. */
  datatype Submission = Submission(call: Option<UpdateCall>, alerted: bool, loading: seq<bool>)

  /** `onSubmit`. There is no try/finally: when the update rejects, the
      handler stops at the `await`, the alert is skipped and the flag is left
      on. */
  function OnSubmit(user: Option<User>, data: UpdateForm, updateSucceeds: bool): (r: Submission)
    ensures r.call.Some? <==> user.Some?
    ensures r.call.Some? ==> r.call.value == UpdateCall(user.value.id, ChangedFields(user, data))
    ensures |r.loading| > 0 && r.loading[0]
    ensures r.loading == if r.alerted then [true, false] else [true]
    ensures r.alerted <==> user.None? || updateSucceeds
  {
    var payload := ChangedFields(user, data);
    if user.Some? then
      var call := UpdateCall(user.value.id, payload);
      if updateSucceeds then Submission(Some(call), true, [true, false])
      else Submission(Some(call), false, [true])
    else Submission(None, true, [true, false])
  }
}
