// The "Create Room" dialog: its submit refuses a name shorter than three
// characters once trimmed, hands the trimmed fields to the page's create
// callback, keeps everything for another try when that fails, and resets
// and closes when it succeeds.
module CreateRoomDialogs {
  import opened JsText

  const NameTooShort := "Room name must be at least 3 characters"
  const CreateFailed := "Failed to create room"
  const MinNameLength := 3

  /** What the dialog hands to `onCreate`. */
  datatype RoomPayload = RoomPayload(name: string, description: string, category: string, isPrivate: bool)

  /** `name.trim().length >= 3`, length in UTF-16 code units. */
  predicate NameLongEnough(name: string) {
    Utf16Length(Trim(name)) >= MinNameLength
  }

  function PayloadOf(name: string, description: string, category: string, isPrivate: bool): (p: RoomPayload)
    ensures p.name == Trim(name) && p.description == Trim(description) && p.category == Trim(category)
    ensures p.isPrivate == isPrivate
  {
    RoomPayload(Trim(name), Trim(description), Trim(category), isPrivate)
  }

  class CreateRoomDialog {
    var name: string
    var description: string
    var category: string
    var isPrivate: bool
    var loading: bool
    var error: string
    /** The parent's `open` flag, which `onClose` clears. */
    var open: bool
    /** The payloads handed to `onCreate`, oldest first. */
    var created: seq<RoomPayload>

    constructor (open': bool)
      ensures name == description == category == error == "" && !isPrivate && !loading
      ensures open == open' && created == []
    {
      name, description, category := "", "", "";
      isPrivate, loading, error := false, false, "";
      open, created := open', [];
    }

    /** The fields as the user fills them in. */
    method Edit(name': string, description': string, category': string, isPrivate': bool)
      modifies this
      ensures name == name' && description == description' && category == category' && isPrivate == isPrivate'
      ensures loading == old(loading) && error == old(error) && open == old(open) && created == old(created)
    {
      name, description, category, isPrivate := name', description', category', isPrivate';
    }

    /** `submit`, with `succeeded` the truthiness of what `onCreate` returns.
        The old error is always cleared first. A short name sets its error
        and calls nothing. Otherwise the trimmed payload goes to `onCreate`;
        on failure every field is kept and the dialog stays open, on success
        the fields are reset and the dialog closes. A closed dialog renders
        nothing, so only an open one can be submitted. */
    method Submit(succeeded: bool)
      requires open
      modifies this
      ensures !NameLongEnough(old(name)) ==>
        && error == NameTooShort && loading == old(loading) && created == old(created) && open == old(open)
        && name == old(name) && description == old(description) && category == old(category) && isPrivate == old(isPrivate)
      ensures NameLongEnough(old(name)) ==>
        created == old(created) + [PayloadOf(old(name), old(description), old(category), old(isPrivate))] && !loading
      ensures NameLongEnough(old(name)) && !succeeded ==>
        && error == CreateFailed && open == old(open)
        && name == old(name) && description == old(description) && category == old(category) && isPrivate == old(isPrivate)
      ensures NameLongEnough(old(name)) && succeeded ==>
        && error == "" && !open
        && name == "" && description == "" && category == "" && !isPrivate
    {
      var longEnough := NameLongEnough(name);
      var payload := PayloadOf(name, description, category, isPrivate);
      error := "";
      if !longEnough {
        error := NameTooShort;
        return;
      }
      loading := true;
      created := created + [payload];
      loading := false;
      if !succeeded {
        error := CreateFailed;
        return;
      }
      name, description, category, isPrivate := "", "", "", false;
      open := false;
    }
  }

  /** Every payload the dialog sends has a trimmed name of at least three
      code units, with no whitespace at either end, and trimmed text fields. */
  lemma PayloadIsClean(name: string, description: string, category: string, isPrivate: bool)
    requires NameLongEnough(name)
    ensures var p := PayloadOf(name, description, category, isPrivate);
      && Utf16Length(p.name) >= MinNameLength
      && !IsSpace(p.name[0]) && !IsSpace(p.name[|p.name| - 1])
      && Trim(p.name) == p.name && Trim(p.description) == p.description && Trim(p.category) == p.category
  {
    TrimIdempotent(name);
    TrimIdempotent(description);
    TrimIdempotent(category);
  }

  /** Padding does not count: whitespace around a name changes neither the
      rule's verdict nor the name sent. */
  lemma PaddingIgnored(pre: string, core: string, post: string)
    requires forall i :: 0 <= i < |pre| ==> IsSpace(pre[i])
    requires forall i :: 0 <= i < |post| ==> IsSpace(post[i])
    requires core != [] ==> !IsSpace(core[0]) && !IsSpace(core[|core| - 1])
    ensures Trim(pre + core + post) == core
    ensures NameLongEnough(pre + core + post) <==> Utf16Length(core) >= MinNameLength
  {
    TrimOfPadded(pre, core, post);
  }

  lemma TrimOfPadded(pre: string, core: string, post: string)
    requires forall i :: 0 <= i < |pre| ==> IsSpace(pre[i])
    requires forall i :: 0 <= i < |post| ==> IsSpace(post[i])
    requires core != [] ==> !IsSpace(core[0]) && !IsSpace(core[|core| - 1])
    ensures Trim(pre + core + post) == core
  {
    var tail := core + post;
    assert pre + core + post == pre + tail;
    if core != [] {
      assert !IsSpace(tail[0]);
      TrimStartOfRun(pre, tail);
      TrimEndOfRun(core, post);
    } else {
      var blank := pre + post;
      assert pre + core + post == blank + "";
      assert forall i :: 0 <= i < |blank| ==> IsSpace(blank[i]);
      TrimStartOfRun(blank, "");
    }
  }

  /** Length is counted in UTF-16 code units: two emoji pass the rule. */
  lemma TwoEmojiNameAccepted()
    ensures NameLongEnough("\U{1F600}\U{1F600}")
  {
    var s := "\U{1F600}\U{1F600}";
    TrimOfTrimmed(s);
    assert Utf16Length(s) == 4 by {
      assert s[1..] == "\U{1F600}";
    }
  }

  /** After a failed create, submitting again sends the very same payload. */
  method RetryAfterFailure(name: string, description: string, category: string, isPrivate: bool)
    returns (first: RoomPayload, second: RoomPayload)
    requires NameLongEnough(name)
    ensures first == second == PayloadOf(name, description, category, isPrivate)
  {
    var d := new CreateRoomDialog(true);
    d.Edit(name, description, category, isPrivate);
    d.Submit(false);
    first := d.created[0];
    d.Submit(true);
    second := d.created[1];
  }
}
