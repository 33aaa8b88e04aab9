/** The add/edit form of components/EventForm.tsx: its initial values, the
    event it submits, and the attachments it collects (links and files). */
module EventForm {
  import opened Wrappers
  import opened Types
  import opened Strings
  import opened Constants
  import opened Seqs

  /** 1.5 * 1024 * 1024 bytes: larger files are refused. */
  const MaxFileSize: nat := 1572864

  /** A file the user picked: its name and size in bytes. */
  datatype FileInfo = FileInfo(name: string, size: nat)

  /** The regular expression `/^https?:\/\//i`. */
  predicate HasHttpScheme(url: string) {
    StartsWithIgnoringCase(url, "http://") || StartsWithIgnoringCase(url, "https://")
  }

  /** The scheme test ignores letter case and needs the whole `://`: an
      upper-case `HTTPS://` counts, a bare host or a scheme missing a slash
      does not. */
  lemma HasHttpSchemeCases(rest: string)
    ensures HasHttpScheme("HTTPS://" + rest) && HasHttpScheme("Http://" + rest)
    ensures !HasHttpScheme("www." + rest) && !HasHttpScheme("https:/")
  {
    var upper := "HTTPS://" + rest;
    assert upper[..8] == "HTTPS://";
    assert StartsWithIgnoringCase(upper, "https://");
    var mixed := "Http://" + rest;
    assert mixed[..7] == "Http://";
    assert StartsWithIgnoringCase(mixed, "http://");
    var bare := "www." + rest;
    assert bare[0] == 'w' && AsciiLower(bare[0]) != 'h';
    assert AsciiLower("https:/"[4]) != "http://"[4];
  }

  /** The link as stored: `https://` is put in front unless the URL already
      starts with `http://` or `https://` in any letter case. */
  function NormalizeUrl(url: string): (r: string)
    ensures HasHttpScheme(r)
    ensures HasHttpScheme(url) ==> r == url
    ensures !HasHttpScheme(url) ==> r == "https://" + url && r[|"https://"|..] == url
  {
    if HasHttpScheme(url) then url
    else
      PrefixStartsWithIgnoringCase("https://", url);
      "https://" + url
  }

  /** Normalising twice is normalising once. */
  lemma NormalizeUrlIdempotent(url: string)
    ensures NormalizeUrl(NormalizeUrl(url)) == NormalizeUrl(url)
  {
  }

  /** The attachment `handleAddLink` appends for a non-empty URL. */
  function LinkAttachment(id: string, linkName: string, linkUrl: string): (a: Attachment)
    ensures a.id == id && a.kind == Link && a.size == None
    ensures HasHttpScheme(a.path) && a.path == NormalizeUrl(linkUrl)
    ensures linkName != "" ==> a.name == linkName
    ensures linkName == "" ==> a.name == a.path
  {
    var finalUrl := NormalizeUrl(linkUrl);
    Attachment(id, OrElse(linkName, finalUrl), Link, finalUrl, None)
  }

  /** The attachment the file reader's completion appends: the file's name
      and size, and `data` (the encoded content) as its path. */
  function FileAttachment(id: string, file: FileInfo, data: string): (a: Attachment)
    ensures a.id == id && a.kind == File && a.name == file.name
    ensures a.path == data && a.size == Some(file.size)
  {
    Attachment(id, file.name, File, data, Some(file.size))
  }

  /** `attachments.filter(a => a.id !== id)`. */
  function WithoutAttachment(attachments: seq<Attachment>, id: string): (r: seq<Attachment>)
    ensures forall a :: a in r <==> a in attachments && a.id != id
    ensures forall a: Attachment :: a.id != id ==> multiset(r)[a] == multiset(attachments)[a]
    ensures (forall a :: a in attachments ==> a.id != id) ==> r == attachments
  {
    var keep := (a: Attachment) => a.id != id;
    if forall a :: a in attachments ==> keep(a) then
      FilterKeepsAll(attachments, keep);
      Filter(attachments, keep)
    else Filter(attachments, keep)
  }

  /** Removing keeps the other attachments in their order: the attachments
      left of a list made of two parts are those left of the first part
      followed by those left of the second. */
  lemma {:induction false} WithoutAttachmentKeepsOrder(first: seq<Attachment>, second: seq<Attachment>, id: string)
    ensures WithoutAttachment(first + second, id) == WithoutAttachment(first, id) + WithoutAttachment(second, id)
  {
    var keep := (a: Attachment) => a.id != id;
    FilterAppend(first, second, keep);
    if forall a :: a in first + second ==> keep(a) {
      FilterKeepsAll(first + second, keep);
      FilterKeepsAll(first, keep);
      FilterKeepsAll(second, keep);
    }
  }

  /** The event `handleSubmit` passes on. The id and the date come from the
      event being edited unless they are empty (`||` on strings); a new event
      gets `freshId` and the selected day. Everything else is the form's. */
  function BuildEvent(initial: Option<CourseEvent>, selectedDay: string, freshId: string,
                      title: string, location: string, startTime: string, endTime: string,
                      colorId: string, attachments: seq<Attachment>): (e: CourseEvent)
    ensures initial.Some? && initial.value.id != "" ==> e.id == initial.value.id
    ensures initial.Some? && initial.value.date != "" ==> e.date == initial.value.date
    ensures (initial.None? || initial.value.id == "") ==> e.id == freshId
    ensures (initial.None? || initial.value.date == "") ==> e.date == selectedDay
    ensures e.title == title && e.location == Some(location)
    ensures e.startTime == startTime && e.endTime == endTime
    ensures e.color == colorId && e.attachments == Some(attachments)
  {
    var initialId := if initial.Some? then initial.value.id else "";
    var initialDate := if initial.Some? then initial.value.date else "";
    CourseEvent(OrElse(initialId, freshId), title, Some(location), OrElse(initialDate, selectedDay),
                startTime, endTime, colorId, Some(attachments))
  }

  /** The state of one open form. */
  class EventFormState {
    const selectedDateStr: string
    const initialData: Option<CourseEvent>
    var title: string
    var location: string
    var startTime: string
    var endTime: string
    var colorId: string
    var attachments: seq<Attachment>
    var showLinkInput: bool
    var linkUrl: string
    var linkName: string
    /** Files accepted by the size check whose reading has not finished. */
    var reading: seq<FileInfo>

    /** Only files within the size limit are ever read. */
    ghost predicate Valid()
      reads this
    {
      forall i :: 0 <= i < |reading| ==> reading[i].size <= MaxFileSize
    }

    /** The form opened for a new event (no `initialData`) or to edit one.
        Each field starts from the edited event unless that value is empty. */
    constructor (selectedDateStr: string, initialData: Option<CourseEvent>)
      ensures Valid()
      ensures this.selectedDateStr == selectedDateStr && this.initialData == initialData
      ensures initialData.None? ==>
                title == "" && location == "" && startTime == "09:00" && endTime == "11:00"
                && colorId == CourseColors[0].id && colorId == "red" && attachments == []
      ensures initialData.Some? ==>
                title == initialData.value.title
                && startTime == OrElse(initialData.value.startTime, "09:00")
                && endTime == OrElse(initialData.value.endTime, "11:00")
                && colorId == OrElse(initialData.value.color, CourseColors[0].id)
                && location == (if initialData.value.location.Some? then initialData.value.location.value else "")
                && attachments == (if initialData.value.attachments.Some? then initialData.value.attachments.value else [])
      ensures !showLinkInput && linkUrl == "" && linkName == "" && reading == []
    {
      this.selectedDateStr := selectedDateStr;
      this.initialData := initialData;
      var d := initialData;
      title := if d.Some? then d.value.title else "";
      location := if d.Some? && d.value.location.Some? then d.value.location.value else "";
      startTime := OrElse(if d.Some? then d.value.startTime else "", "09:00");
      endTime := OrElse(if d.Some? then d.value.endTime else "", "11:00");
      colorId := OrElse(if d.Some? then d.value.color else "", CourseColors[0].id);
      attachments := if d.Some? && d.value.attachments.Some? then d.value.attachments.value else [];
      showLinkInput, linkUrl, linkName := false, "", "";
      reading := [];
    }

    /** The text inputs and the colour buttons (their `onChange`/`onClick`
        setters). */
    method EnterDetails(title: string, location: string, startTime: string, endTime: string, colorId: string)
      requires Valid()
      modifies this
      ensures Valid()
      ensures this.title == title && this.location == location
      ensures this.startTime == startTime && this.endTime == endTime && this.colorId == colorId
      ensures attachments == old(attachments) && reading == old(reading)
      ensures showLinkInput == old(showLinkInput) && linkUrl == old(linkUrl) && linkName == old(linkName)
    {
      this.title, this.location := title, location;
      this.startTime, this.endTime, this.colorId := startTime, endTime, colorId;
    }

    /** The link button toggles the link inputs; the inputs set URL and name. */
    method EnterLink(show: bool, url: string, name: string)
      requires Valid()
      modifies this
      ensures Valid()
      ensures showLinkInput == show && linkUrl == url && linkName == name
      ensures title == old(title) && location == old(location) && startTime == old(startTime)
      ensures endTime == old(endTime) && colorId == old(colorId)
      ensures attachments == old(attachments) && reading == old(reading)
    {
      showLinkInput, linkUrl, linkName := show, url, name;
    }

    /** `handleSubmit`: nothing without a title; otherwise the built event.
        The start and end times are passed on unchecked. */
    method Submit(freshId: string) returns (saved: Option<CourseEvent>)
      ensures saved.None? <==> title == ""
      ensures saved.Some? ==>
                saved.value == BuildEvent(initialData, selectedDateStr, freshId, title, location,
                                          startTime, endTime, colorId, attachments)
    {
      if title == "" {
        return None;
      }
      saved := Some(BuildEvent(initialData, selectedDateStr, freshId, title, location,
                               startTime, endTime, colorId, attachments));
    }

    /** `handleFileSelect`: a missing file or one over the size limit is
        refused and nothing changes; an accepted file starts being read. */
    method SelectFile(file: Option<FileInfo>) returns (accepted: bool)
      requires Valid()
      modifies this
      ensures Valid()
      ensures accepted <==> file.Some? && file.value.size <= MaxFileSize
      ensures reading == old(reading) + (if accepted then [file.value] else [])
      ensures attachments == old(attachments)
      ensures title == old(title) && location == old(location) && startTime == old(startTime)
      ensures endTime == old(endTime) && colorId == old(colorId)
      ensures showLinkInput == old(showLinkInput) && linkUrl == old(linkUrl) && linkName == old(linkName)
    {
      if file.None? {
        return false;
      }
      if file.value.size > MaxFileSize {
        return false;
      }
      reading := reading + [file.value];
      accepted := true;
    }

    /** The reader's `onload` for the `i`-th file being read: a non-empty
        `result` appends one file attachment, which is within the limit. */
    method FileLoaded(i: nat, result: string, freshId: string)
      requires Valid() && i < |reading|
      modifies this
      ensures Valid()
      ensures reading == old(reading)[..i] + old(reading)[i + 1..]
      ensures result == "" ==> attachments == old(attachments)
      ensures result != "" ==> attachments == old(attachments) + [FileAttachment(freshId, old(reading)[i], result)]
      ensures result != "" ==> attachments[|attachments| - 1].size.value <= MaxFileSize
      ensures title == old(title) && location == old(location) && startTime == old(startTime)
      ensures endTime == old(endTime) && colorId == old(colorId)
      ensures showLinkInput == old(showLinkInput) && linkUrl == old(linkUrl) && linkName == old(linkName)
    {
      var file := reading[i];
      reading := reading[..i] + reading[i + 1..];
      if result != "" {
        attachments := attachments + [FileAttachment(freshId, file, result)];
      }
    }

    /** `handleAddLink`: without a URL nothing changes; otherwise exactly one
        link attachment is appended and the link inputs are cleared. */
    method AddLink(freshId: string)
      requires Valid()
      modifies this
      ensures Valid()
      ensures old(linkUrl) == "" ==> unchanged(this)
      ensures old(linkUrl) != "" ==>
                attachments == old(attachments) + [LinkAttachment(freshId, old(linkName), old(linkUrl))]
                && linkUrl == "" && linkName == "" && !showLinkInput
      ensures title == old(title) && location == old(location) && startTime == old(startTime)
      ensures endTime == old(endTime) && colorId == old(colorId) && reading == old(reading)
    {
      if linkUrl == "" {
        return;
      }
      attachments := attachments + [LinkAttachment(freshId, linkName, linkUrl)];
      linkUrl, linkName, showLinkInput := "", "", false;
    }

    /** `removeAttachment(id)`. */
    method RemoveAttachment(id: string)
      requires Valid()
      modifies this
      ensures Valid()
      ensures attachments == WithoutAttachment(old(attachments), id)
      ensures title == old(title) && location == old(location) && startTime == old(startTime)
      ensures endTime == old(endTime) && colorId == old(colorId) && reading == old(reading)
      ensures showLinkInput == old(showLinkInput) && linkUrl == old(linkUrl) && linkName == old(linkName)
    {
      attachments := WithoutAttachment(attachments, id);
    }
  }
}
