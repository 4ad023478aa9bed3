/** The bookmarks page: the signed-in user's bookmarks that still have their page,
    and removal of one bookmark after the user confirms. The bookmark service's answers
    and the confirmation are parameters; the requests sent are logged in `requests`. */
module BookmarkInterface {
  import opened Wrappers
  import Text
  import Seqs

  datatype Page = Page(id: string, url: string, title: string)
  datatype Bookmark = Bookmark(id: string, pageId: string, userId: string, createdAt: string, page: Option<Page>)

  /** `bookmark.page` is truthy: the page is present. */
  predicate HasPage(b: Bookmark) {
    b.page.Some?
  }

  /** The bookmarks the page shows from a listing: those with a page, in order. */
  function ValidBookmarks(data: seq<Bookmark>): (r: seq<Bookmark>)
    ensures forall b :: b in r <==> b in data && HasPage(b)
  {
    Seqs.Filter(HasPage, data)
  }

  /** Dropping the bookmarks without a page keeps the others in their order, and a
      listing where every bookmark has its page is shown whole. */
  lemma {:induction false} ValidBookmarksKeepOrder(data: seq<Bookmark>)
    ensures Seqs.IsSubsequence(ValidBookmarks(data), data)
    ensures (forall i :: 0 <= i < |data| ==> HasPage(data[i])) ==> ValidBookmarks(data) == data
  {
    Seqs.FilterIsSubsequence(HasPage, data);
    if forall i :: 0 <= i < |data| ==> HasPage(data[i]) {
      Seqs.FilterKeepsAll(HasPage, data);
    }
  }

  /** `bookmarks.filter(bookmark => bookmark.id !== bookmarkId)`. */
  function RemoveById(bookmarks: seq<Bookmark>, bookmarkId: string): (r: seq<Bookmark>)
    ensures forall b :: b in r <==> b in bookmarks && b.id != bookmarkId
  {
    Seqs.Filter((b: Bookmark) => b.id != bookmarkId, bookmarks)
  }

  /** How many entries carry the id. */
  function CountId(bookmarks: seq<Bookmark>, bookmarkId: string): nat {
    if bookmarks == [] then 0
    else (if bookmarks[0].id == bookmarkId then 1 else 0) + CountId(bookmarks[1..], bookmarkId)
  }

  /** Removal takes out exactly the entries with that id: the others stay in order,
      and the list shrinks by the number of entries carrying the id. */
  lemma {:induction false} RemoveByIdExactly(bookmarks: seq<Bookmark>, bookmarkId: string)
    ensures Seqs.IsSubsequence(RemoveById(bookmarks, bookmarkId), bookmarks)
    ensures |RemoveById(bookmarks, bookmarkId)| == |bookmarks| - CountId(bookmarks, bookmarkId)
  {
    Seqs.FilterIsSubsequence((b: Bookmark) => b.id != bookmarkId, bookmarks);
    RemoveByIdLength(bookmarks, bookmarkId);
  }

  lemma {:induction false} RemoveByIdLength(bookmarks: seq<Bookmark>, bookmarkId: string)
    ensures |RemoveById(bookmarks, bookmarkId)| + CountId(bookmarks, bookmarkId) == |bookmarks|
  {
    if bookmarks != [] {
      RemoveByIdLength(bookmarks[1..], bookmarkId);
    }
  }

  /** Removing an id that no bookmark carries changes nothing. */
  lemma {:induction false} RemoveAbsentId(bookmarks: seq<Bookmark>, bookmarkId: string)
    requires forall i :: 0 <= i < |bookmarks| ==> bookmarks[i].id != bookmarkId
    ensures RemoveById(bookmarks, bookmarkId) == bookmarks
  {
    Seqs.FilterKeepsAll((b: Bookmark) => b.id != bookmarkId, bookmarks);
  }

  /** A request sent to the bookmark service. */
  datatype Request = ListBookmarks(userId: Option<string>) | DeleteBookmark(bookmarkId: string)

  /** The answer to a listing: a network error, a rejected status, a body that is not
      JSON, a JSON body that is not a list (so `filter` throws), or the bookmarks. */
  datatype ListOutcome = ListNetworkError | ListRejected(status: int) | ListUnparsable | NotAList | Listed(items: seq<Bookmark>)

  /** The answer to a delete: a network error, a rejected status, or success. */
  datatype DeleteOutcome = DeleteNetworkError | DeleteRejected(status: int) | Deleted

  const FetchFailed := "Failed to fetch bookmarks. Please try again later."
  const DeleteFailed := "Failed to delete bookmark. Please try again."

  class BookmarkPage {
    const userId: Option<string>
    var bookmarks: seq<Bookmark>
    var loading: bool
    var error: Option<string>
    var requests: seq<Request>

    constructor(userId: Option<string>)
      ensures this.userId == userId && bookmarks == [] && loading && error.None? && requests == []
    {
      this.userId := userId;
      bookmarks := [];
      loading := true;
      error := None;
      requests := [];
    }

    /** `fetchBookmarks`: the list becomes the listed bookmarks that have a page; any
        failure keeps the list and sets an error; `loading` ends false. */
    method FetchBookmarks(outcome: ListOutcome)
      modifies this
      ensures requests == old(requests) + [ListBookmarks(userId)]
      ensures !loading
      ensures outcome.Listed? ==> bookmarks == ValidBookmarks(outcome.items) && error.None?
      ensures outcome.ListRejected? ==>
        bookmarks == old(bookmarks) && error == Some("Failed to fetch bookmarks: " + Text.IntToString(outcome.status))
      ensures !outcome.Listed? && !outcome.ListRejected? ==> bookmarks == old(bookmarks) && error == Some(FetchFailed)
    {
      loading := true;
      error := None;
      requests := requests + [ListBookmarks(userId)];
      match outcome {
        case ListRejected(status) =>
          error := Some("Failed to fetch bookmarks: " + Text.IntToString(status));
        case Listed(items) =>
          var validBookmarks := ValidBookmarks(items);
          bookmarks := validBookmarks;
        case _ =>
          error := Some(FetchFailed);
      }
      loading := false;
    }

    /** `removeBookmark`: nothing at all happens unless the user confirms; then one
        delete request is sent, and the entry leaves the list only if it succeeded. */
    method RemoveBookmark(bookmarkId: string, confirmed: bool, outcome: DeleteOutcome)
      modifies this
      ensures !confirmed ==> bookmarks == old(bookmarks) && error == old(error) && requests == old(requests)
      ensures confirmed ==> requests == old(requests) + [DeleteBookmark(bookmarkId)]
      ensures confirmed && outcome.Deleted? ==> bookmarks == RemoveById(old(bookmarks), bookmarkId) && error == old(error)
      ensures confirmed && !outcome.Deleted? ==> bookmarks == old(bookmarks) && error == Some(DeleteFailed)
      ensures loading == old(loading)
    {
      if !confirmed {
        return;
      }
      requests := requests + [DeleteBookmark(bookmarkId)];
      if outcome.Deleted? {
        bookmarks := RemoveById(bookmarks, bookmarkId);
      } else {
        error := Some(DeleteFailed);
      }
    }
  }
}
