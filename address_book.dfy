// The client's address book: the groups of pending applicants and of
// users who turned one down, the selection that decides whether the
// accept/refuse actions apply, and the search box that hides contacts
// whose nickname does not contain the search text.
module AddressBook {
  import opened Wrappers
  import opened ClientData

  /** Ordinal case folding, for the ASCII letters. */
  function FoldChar(c: char): (r: char)
  {
    if 'a' <= c <= 'z' then (c as int - 32) as char else c
  }

  function Fold(s: String): (r: String)
    ensures |r| == |s| && forall i :: 0 <= i < |s| ==> r[i] == FoldChar(s[i])
  {
    seq(|s|, i requires 0 <= i < |s| => FoldChar(s[i]))
  }

  /** pattern occurs in text at offset i, ignoring case. */
  predicate MatchAt(text: String, pattern: String, i: int)
  {
    0 <= i <= |text| - |pattern| && Fold(text[i..i + |pattern|]) == Fold(pattern)
  }

  lemma MatchShift(text: String, pattern: String)
    requires |text| > 0
    ensures forall i :: 0 <= i ==> (MatchAt(text[1..], pattern, i) <==> MatchAt(text, pattern, i + 1))
  {
    forall i | 0 <= i
      ensures MatchAt(text[1..], pattern, i) <==> MatchAt(text, pattern, i + 1)
    {
      if i <= |text| - 1 - |pattern| {
        assert text[1..][i..i + |pattern|] == text[i + 1..i + 1 + |pattern|];
      }
    }
  }

  /** text.Contains(pattern, StringComparison.OrdinalIgnoreCase) */
  function ContainsIgnoreCase(text: String, pattern: String): (r: bool)
    ensures r <==> exists i :: MatchAt(text, pattern, i)
    decreases |text|
  {
    if |pattern| > |text| then false
    else if Fold(text[..|pattern|]) == Fold(pattern) then
      assert MatchAt(text, pattern, 0) by {
        assert text[0..0 + |pattern|] == text[..|pattern|];
      }
      true
    else
      assert !MatchAt(text, pattern, 0) by {
        assert text[0..0 + |pattern|] == text[..|pattern|];
      }
      MatchShift(text, pattern);
      assert forall i :: MatchAt(text, pattern, i) ==> MatchAt(text[1..], pattern, i - 1);
      ContainsIgnoreCase(text[1..], pattern)
  }

  lemma FoldTwice(s: String)
    ensures Fold(Fold(s)) == Fold(s)
  {
  }

  lemma FoldSlice(s: String, i: int, j: int)
    requires 0 <= i <= j <= |s|
    ensures Fold(s)[i..j] == Fold(s[i..j])
  {
  }

  lemma MatchFolded(text: String, pattern: String, i: int)
    ensures MatchAt(Fold(text), Fold(pattern), i) <==> MatchAt(text, pattern, i)
  {
    FoldTwice(pattern);
    if 0 <= i <= |text| - |pattern| {
      FoldSlice(text, i, i + |pattern|);
      FoldTwice(text[i..i + |pattern|]);
    }
  }

  /** Case plays no part: folding either side first gives the same answer. */
  lemma ContainsIgnoresCase(text: String, pattern: String)
    ensures ContainsIgnoreCase(Fold(text), Fold(pattern)) == ContainsIgnoreCase(text, pattern)
  {
    forall i
      ensures MatchAt(Fold(text), Fold(pattern), i) <==> MatchAt(text, pattern, i)
    {
      MatchFolded(text, pattern, i);
    }
  }

  /** Whether a contact stays shown for the search text: an empty (or
      null) search shows everyone. */
  function Shown(searchText: Option<String>, nickName: String): (r: bool)
    ensures searchText.None? || searchText.value == [] ==> r
    ensures searchText.Some? && searchText.value != [] ==> (r <==> ContainsIgnoreCase(nickName, searchText.value))
  {
    if searchText.None? || searchText.value == [] then true
    else ContainsIgnoreCase(nickName, searchText.value)
  }

  const ApplyType: String := "Apply"
  const RejectType: String := "Reject"
  const ApplyTitle: String := "申请列表"
  const RejectTitle: String := "被拒列表"

  /** A titled group of contacts in the tree. */
  class UserGroup {
    const title: String
    const groupType: String
    const subItems: Option<seq<Contact>>
    var count: int
    var isVisible: bool
    var selectdItem: Contact?

    constructor (title: String, groupType: String, members: seq<Contact>)
      ensures this.title == title && this.groupType == groupType && subItems == Some(members)
      ensures count == |members| && isVisible && selectdItem == null
    {
      this.title := title;
      this.groupType := groupType;
      subItems := Some(members);
      count := |members|;
      isVisible := true;
      selectdItem := null;
    }
  }

  /** The shape of a group GetData builds. */
  datatype GroupShape = GroupShape(title: String, groupType: String, members: seq<Contact>)

  predicate NonEmpty(list: Option<seq<Contact>>)
  {
    list.Some? && |list.value| > 0
  }

  /** The applicants' group, then the refusals' group, each only when its
      list came back non-empty. */
  function ExpectedGroups(apply: Option<seq<Contact>>, reject: Option<seq<Contact>>): (r: seq<GroupShape>)
    ensures |r| <= 2
    ensures forall g :: g in r ==> |g.members| > 0 && g.groupType in {ApplyType, RejectType}
  {
    (if NonEmpty(apply) then [GroupShape(ApplyTitle, ApplyType, apply.value)] else [])
    + (if NonEmpty(reject) then [GroupShape(RejectTitle, RejectType, reject.value)] else [])
  }

  predicate Built(g: UserGroup, shape: GroupShape)
    reads g
  {
    g.title == shape.title && g.groupType == shape.groupType && g.subItems == Some(shape.members)
    && g.count == |shape.members| && g.isVisible && g.selectdItem == null
  }

  class AddressBookViewModel {
    var userGroups: seq<UserGroup>
    var selectedGroup: UserGroup?
    var selectedUser: Contact?
    var isFriend: bool
    var searchText: Option<String>

    constructor ()
      ensures userGroups == [] && selectedGroup == null && selectedUser == null
      ensures !isFriend && searchText.None?
    {
      userGroups := [];
      selectedGroup := null;
      selectedUser := null;
      isFriend := false;
      searchText := None;
    }

    /** Rebuilds the groups from the two fetched lists after clearing the
        selection; a null or empty list gives no group. */
    method GetData(apply: Option<seq<Contact>>, reject: Option<seq<Contact>>)
      modifies this`userGroups, this`selectedGroup, this`selectedUser
      ensures selectedGroup == null && selectedUser == null
      ensures var shapes := ExpectedGroups(apply, reject);
        |userGroups| == |shapes|
        && forall i :: 0 <= i < |shapes| ==> fresh(userGroups[i]) && Built(userGroups[i], shapes[i])
    {
      selectedUser := null;
      selectedGroup := null;
      userGroups := [];
      if NonEmpty(apply) {
        var item := new UserGroup(ApplyTitle, ApplyType, apply.value);
        userGroups := userGroups + [item];
      }
      if NonEmpty(reject) {
        var item := new UserGroup(RejectTitle, RejectType, reject.value);
        userGroups := userGroups + [item];
      }
    }

    /** Selecting in a group: the group's selected contact becomes the
        selected user, and the accept action applies only to an
        applicant in the applicants' group. */
    method SelectdItem(group: UserGroup)
      modifies this`selectedGroup, this`selectedUser, this`isFriend
      ensures selectedGroup == group && selectedUser == group.selectdItem
      ensures isFriend <==> group.selectdItem != null && group.groupType == ApplyType
    {
      selectedGroup := group;
      selectedUser := group.selectdItem;
      isFriend := selectedUser != null && selectedGroup != null && selectedGroup.groupType == ApplyType;
    }

    ghost function Contacts(): set<Contact>
      reads this
    {
      set g, c | g in userGroups && g.subItems.Some? && c in g.subItems.value :: c
    }

    /** Shows each contact of every group by the search text, and shows a
        group exactly when it has members, whatever the search hid. */
    method FilterContacts()
      modifies userGroups`isVisible, Contacts()`isVisible
      ensures forall j :: 0 <= j < |userGroups| ==>
        userGroups[j].isVisible == (userGroups[j].subItems.Some? && |userGroups[j].subItems.value| > 0)
      ensures forall j, k :: 0 <= j < |userGroups| && userGroups[j].subItems.Some? && 0 <= k < |userGroups[j].subItems.value| ==>
        userGroups[j].subItems.value[k].isVisible == Shown(searchText, userGroups[j].subItems.value[k].nickName)
      ensures forall c :: c in Contacts() ==> c.chartCount == old(c.chartCount)
    {
      ghost var all := Contacts();
      var i := 0;
      while i < |userGroups|
        invariant 0 <= i <= |userGroups|
        invariant forall j :: 0 <= j < i ==>
          userGroups[j].isVisible == (userGroups[j].subItems.Some? && |userGroups[j].subItems.value| > 0)
        invariant forall j, k :: 0 <= j < i && userGroups[j].subItems.Some? && 0 <= k < |userGroups[j].subItems.value| ==>
          userGroups[j].subItems.value[k].isVisible == Shown(searchText, userGroups[j].subItems.value[k].nickName)
      {
        var group := userGroups[i];
        if group.subItems.Some? {
          forall c | c in group.subItems.value ensures c in all {
            assert group in userGroups;
          }
          ShowBySearch(group.subItems.value);
        }
        group.isVisible := group.subItems.Some? && |group.subItems.value| > 0;
        i := i + 1;
      }
    }

    /** One group's contacts shown or hidden by the search text. */
    method ShowBySearch(items: seq<Contact>)
      modifies items`isVisible
      ensures forall k :: 0 <= k < |items| ==> items[k].isVisible == Shown(searchText, items[k].nickName)
      ensures forall c :: c in items ==> c.chartCount == old(c.chartCount)
    {
      var k := 0;
      while k < |items|
        invariant 0 <= k <= |items|
        invariant forall m :: 0 <= m < k ==> items[m].isVisible == Shown(searchText, items[m].nickName)
      {
        items[k].isVisible := Shown(searchText, items[k].nickName);
        k := k + 1;
      }
    }

    /** The SearchText setter: stores the text and re-runs the filter. */
    method SetSearchText(value: Option<String>)
      modifies this`searchText, userGroups, Contacts()
      ensures searchText == value
      ensures forall j, k :: 0 <= j < |userGroups| && userGroups[j].subItems.Some? && 0 <= k < |userGroups[j].subItems.value| ==>
        userGroups[j].subItems.value[k].isVisible == Shown(value, userGroups[j].subItems.value[k].nickName)
      ensures forall j :: 0 <= j < |userGroups| ==>
        userGroups[j].isVisible == (userGroups[j].subItems.Some? && |userGroups[j].subItems.value| > 0)
    {
      searchText := value;
      FilterContacts();
    }
  }
}
