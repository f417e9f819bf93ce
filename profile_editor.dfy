/** The profile editor (components/ProfileEditor.tsx): a form holding a copy of
    the signed-in account, the avatar size limit and the `@`-username field.
    The file chosen and the data URL it is read into are parameters. */
module ProfileEditor {
  import opened Types
  import JsString

  /** `2 * 1024 * 1024` bytes. */
  const MaxAvatarBytes: nat := 2097152

  /** A file is read unless `file.size > 2 * 1024 * 1024`. */
  predicate AvatarAccepted(size: nat) {
    size <= MaxAvatarBytes
  }

  /** The limit is inclusive: exactly 2 MiB is accepted, one byte more is not. */
  lemma AvatarLimit()
    ensures AvatarAccepted(2 * 1024 * 1024) && !AvatarAccepted(2 * 1024 * 1024 + 1)
  {
  }

  /** The inputs wired to `handleChange`, by their `name` attribute. */
  datatype Field = NameField | BioField

  /** `{ ...prev, [name]: value }`: only the named field takes the value. */
  function SetField(u: User, f: Field, v: string): (r: User)
    ensures r.name == (if f == NameField then v else u.name)
    ensures r.bio == (if f == BioField then v else u.bio)
    ensures r.(name := u.name, bio := u.bio) == u
  {
    match f
    case NameField => u.(name := v)
    case BioField => u.(bio := v)
  }

  /** `username.replace('@', '')`: the value the username input shows. */
  function DisplayUsername(username: string): string {
    JsString.RemoveFirst(username, '@')
  }

  /** `` `@${typed}` ``: what typing into the username input stores. */
  function StoredUsername(typed: string): (r: string)
    ensures JsString.StartsWith(r, '@') && |r| == |typed| + 1
  {
    "@" + typed
  }

  /** Typing a value and reading the input back gives that value, whatever it
      contains; and a stored username that starts with `@` is shown without it
      and stored back unchanged. */
  lemma UsernameRoundTrip(typed: string, username: string)
    ensures DisplayUsername(StoredUsername(typed)) == typed
    ensures JsString.StartsWith(username, '@') ==>
              DisplayUsername(username) == username[1..] && StoredUsername(DisplayUsername(username)) == username
  {
    assert ("@" + typed)[1..] == typed;
    if JsString.StartsWith(username, '@') {
      assert username == "@" + username[1..];
    }
  }

  /** Only the first `@` is removed, wherever it stands: the input shows
      everything before the first `@` and everything after it, later `@`s
      included. */
  lemma DisplayRemovesFirstOnly(s: string)
    requires '@' in s
    ensures DisplayUsername(s) == s[..JsString.IndexOf(s, '@')] + s[JsString.IndexOf(s, '@') + 1..]
  {
    JsString.RemoveFirstAt(s, '@', JsString.IndexOf(s, '@'));
  }

  datatype FileOutcome = NoFile | TooLarge | Reading

  class ProfileForm {
    var formData: User
    var isUploading: bool

    /** `useState<User>({ ...user })` */
    constructor (user: User)
      ensures formData == user && !isUploading
    {
      formData := user;
      isUploading := false;
    }

    /** `handleChange` */
    method HandleChange(f: Field, v: string)
      modifies this`formData
      ensures formData == SetField(old(formData), f, v)
    {
      formData := SetField(formData, f, v);
    }

    /** `handleFileChange` up to the read: no file or a file over the limit
        changes nothing (the latter with an alert); otherwise a read starts. */
    method SelectFile(size: Option<nat>) returns (outcome: FileOutcome)
      modifies this`isUploading
      ensures outcome == (if size.None? then NoFile else if !AvatarAccepted(size.value) then TooLarge else Reading)
      ensures outcome == Reading ==> isUploading
      ensures outcome != Reading ==> isUploading == old(isUploading)
    {
      if size.None? {
        outcome := NoFile;
      } else if size.value > MaxAvatarBytes {
        outcome := TooLarge;
      } else {
        isUploading := true;
        outcome := Reading;
      }
    }

    /** The reader's `onloadend`: the avatar becomes the data URL and the upload
        flag drops. */
    method FileLoaded(dataUrl: string)
      modifies this`formData, this`isUploading
      ensures formData == old(formData).(avatar := dataUrl)
      ensures !isUploading
    {
      formData := formData.(avatar := dataUrl);
      isUploading := false;
    }

    /** The username input's value. */
    function ShownUsername(): string
      reads this
    {
      DisplayUsername(formData.username)
    }

    /** The username input's `onChange`. */
    method EditUsername(typed: string)
      modifies this`formData
      ensures formData == old(formData).(username := StoredUsername(typed))
      ensures ShownUsername() == typed
    {
      formData := formData.(username := StoredUsername(typed));
      UsernameRoundTrip(typed, formData.username);
    }

    /** The form can be submitted: the submit button is disabled while a file
        is read, and the browser refuses to submit while a `required` input,
        name or username, is empty. */
    predicate CanSubmit()
      reads this
    {
      !isUploading && formData.name != "" && ShownUsername() != ""
    }

    /** `handleSubmit`: the form as it stands goes to `onSave`; when the form
        cannot be submitted nothing is emitted. */
    method Submit() returns (saved: Option<User>)
      ensures saved.Some? <==> !isUploading && formData.name != "" && ShownUsername() != ""
      ensures saved.Some? ==> saved.value == formData
    {
      if !CanSubmit() {
        saved := None;
      } else {
        saved := Some(formData);
      }
    }
  }
}
