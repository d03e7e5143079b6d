/** The report form (src/components/ReportScammerDialog.tsx): eleven text
    fields kept in an object, two optional file slots, the multipart payload
    built on submit, and the reset after a successful submission. */
module ReportScammerDialog {
  import opened Wrappers
  import opened ScamReportsContext

  /** The keys of `formData`, in the order the object literal declares them. */
  const FieldKeys: seq<string> := [
    "reporters_name", "reporters_email", "reporters_phone",
    "scammers_name", "scammers_account", "scammers_bank", "scammers_phone",
    "scammers_instagram", "scammers_twitter", "date_occurred", "description"]

  const ImageKey: string := "scammers_image"
  const DocumentsKey: string := "other_documents"

  /** A string-valued object as its `Object.entries`, in key order. */
  type Entries = seq<(string, string)>

  function Keys(e: Entries): (ks: seq<string>)
    ensures |ks| == |e| && forall i :: 0 <= i < |e| ==> ks[i] == e[i].0
  {
    seq(|e|, i requires 0 <= i < |e| => e[i].0)
  }

  /** `formData[key]`, or `None` when the object has no such key. */
  function Lookup(e: Entries, key: string): (v: Option<string>)
    ensures v.None? <==> key !in Keys(e)
    decreases |e|
  {
    if |e| == 0 then None
    else if e[0].0 == key then Some(e[0].1)
    else
      assert Keys(e) == [e[0].0] + Keys(e[1..]);
      Lookup(e[1..], key)
  }

  /** A found value is the value of the first entry under the key. */
  lemma {:induction false} LookupFirst(e: Entries, key: string)
    ensures Lookup(e, key).Some? ==>
      exists i :: 0 <= i < |e| && e[i] == (key, Lookup(e, key).value) && forall j :: 0 <= j < i ==> e[j].0 != key
    decreases |e|
  {
    if |e| > 0 && e[0].0 != key {
      LookupFirst(e[1..], key);
      var v := Lookup(e[1..], key);
      if v.Some? {
        var i :| 0 <= i < |e[1..]| && e[1..][i] == (key, v.value) && forall j :: 0 <= j < i ==> e[1..][j].0 != key;
        assert e[i + 1] == (key, v.value);
        assert forall j :: 0 <= j < i + 1 ==> e[j].0 != key by {
          forall j | 0 <= j < i + 1
            ensures e[j].0 != key
          {
            if j > 0 {
              assert e[j] == e[1..][j - 1];
            }
          }
        }
      }
    }
  }

  /** The initial (and reset) form: every field present and empty. */
  function InitialForm(): (e: Entries)
    ensures |e| == 11 && Keys(e) == FieldKeys
    ensures forall i :: 0 <= i < |e| ==> e[i].1 == ""
  {
    seq(|FieldKeys|, i requires 0 <= i < |FieldKeys| => (FieldKeys[i], ""))
  }

  lemma KeysCons(x: (string, string), rest: Entries)
    ensures Keys([x] + rest) == [x.0] + Keys(rest)
  {
  }

  lemma LookupCons(x: (string, string), rest: Entries, key: string)
    ensures Lookup([x] + rest, key) == if x.0 == key then Some(x.1) else Lookup(rest, key)
  {
    assert ([x] + rest)[0] == x;
    assert ([x] + rest)[1..] == rest;
  }

  /** `{ ...prev, [name]: value }` on the entries: an existing key keeps its
      position and takes the new value; an unknown key is added at the end
      (`SetFieldKeys`, `SetFieldOthers`). */
  function SetField(e: Entries, name: string, value: string): (r: Entries)
    ensures |e| <= |r| <= |e| + 1
    decreases |e|
  {
    if |e| == 0 then [(name, value)]
    else if e[0].0 == name then [(name, value)] + e[1..]
    else [e[0]] + SetField(e[1..], name, value)
  }

  /** The keys are unchanged when `name` is one of them; otherwise the pair is appended. */
  lemma {:induction false} SetFieldKeys(e: Entries, name: string, value: string)
    ensures name in Keys(e) ==> Keys(SetField(e, name, value)) == Keys(e)
    ensures name !in Keys(e) ==> SetField(e, name, value) == e + [(name, value)]
    decreases |e|
  {
    if |e| > 0 {
      assert e == [e[0]] + e[1..];
      KeysCons(e[0], e[1..]);
      if e[0].0 == name {
        KeysCons((name, value), e[1..]);
      } else {
        SetFieldKeys(e[1..], name, value);
        KeysCons(e[0], SetField(e[1..], name, value));
      }
    }
  }

  /** Every entry under another key stays where it was. */
  lemma {:induction false} SetFieldOthers(e: Entries, name: string, value: string)
    ensures forall i :: 0 <= i < |e| && e[i].0 != name ==> SetField(e, name, value)[i] == e[i]
    decreases |e|
  {
    if |e| > 0 && e[0].0 != name {
      SetFieldOthers(e[1..], name, value);
      var r := SetField(e, name, value);
      forall i | 0 < i < |e| && e[i].0 != name ensures r[i] == e[i] {
        assert e[i] == e[1..][i - 1];
      }
    }
  }

  /** After `SetField` the key reads back the new value and every other key
      reads back what it held before. */
  lemma {:induction false} SetFieldLookup(e: Entries, name: string, value: string, other: string)
    ensures Lookup(SetField(e, name, value), name) == Some(value)
    ensures other != name ==> Lookup(SetField(e, name, value), other) == Lookup(e, other)
    decreases |e|
  {
    if |e| == 0 {
    } else if e[0].0 == name {
      LookupCons((name, value), e[1..], name);
      LookupCons((name, value), e[1..], other);
      LookupCons(e[0], e[1..], other);
      assert e == [e[0]] + e[1..];
    } else {
      SetFieldLookup(e[1..], name, value, other);
      var rest := SetField(e[1..], name, value);
      LookupCons(e[0], rest, name);
      LookupCons(e[0], rest, other);
      LookupCons(e[0], e[1..], other);
      assert e == [e[0]] + e[1..];
    }
  }

  /** Typing into any field of the form keeps the form's eleven keys in order. */
  lemma SetFieldKeepsShape(e: Entries, name: string, value: string)
    requires Keys(e) == FieldKeys && name in FieldKeys
    ensures Keys(SetField(e, name, value)) == FieldKeys
    ensures |SetField(e, name, value)| == 11
  {
    SetFieldKeys(e, name, value);
  }

  function TextParts(e: Entries): (ps: seq<FormPart>)
    ensures |ps| == |e|
    ensures forall i :: 0 <= i < |e| ==> ps[i] == TextPart(e[i].0, e[i].1)
  {
    seq(|e|, i requires 0 <= i < |e| => TextPart(e[i].0, e[i].1))
  }

  /** The payload `handleSubmit` builds: the text fields in key order, then
      the image if one was chosen, then the documents if chosen. */
  function Payload(e: Entries, image: Option<File>, documents: Option<File>): seq<FormPart> {
    TextParts(e)
    + (if image.Some? then [FilePart(ImageKey, image.value)] else [])
    + (if documents.Some? then [FilePart(DocumentsKey, documents.value)] else [])
  }

  /** The payload has one part per field followed by one part per filled slot. */
  lemma PayloadShape(e: Entries, image: Option<File>, documents: Option<File>)
    ensures |Payload(e, image, documents)| == |e| + (if image.Some? then 1 else 0) + (if documents.Some? then 1 else 0)
    ensures Payload(e, image, documents)[..|e|] == TextParts(e)
    ensures image.Some? ==> Payload(e, image, documents)[|e|] == FilePart(ImageKey, image.value)
    ensures documents.Some? ==> Payload(e, image, documents)[|Payload(e, image, documents)| - 1]
                                == FilePart(DocumentsKey, documents.value)
  {
  }

  /** With the form's own keys the payload has 11 to 13 parts. */
  lemma FormPayloadLength(e: Entries, image: Option<File>, documents: Option<File>)
    requires Keys(e) == FieldKeys
    ensures 11 <= |Payload(e, image, documents)| <= 13
    ensures forall i :: 0 <= i < 11 ==> Payload(e, image, documents)[i].TextPart?
                                         && Payload(e, image, documents)[i].key == FieldKeys[i]
  {
    PayloadShape(e, image, documents);
  }

  datatype FileKind = Image | Documents

  /** The submit button's state. */
  datatype SubmitButton = SubmitButton(disabled: bool, caption: string)

  function RenderSubmitButton(loading: bool): (b: SubmitButton)
    ensures b.disabled <==> loading
    ensures b.caption == (if loading then "Submitting..." else "Submit Report")
  {
    SubmitButton(loading, if loading then "Submitting..." else "Submit Report")
  }

  class ReportDialog {
    var formData: Entries
    var scammersImage: Option<File>
    var otherDocuments: Option<File>
    /** The open state the parent owns; `onOpenChange(false)` sets it. */
    var isOpen: bool

    constructor (isOpen: bool)
      ensures formData == InitialForm() && scammersImage == None && otherDocuments == None
      ensures this.isOpen == isOpen
    {
      formData := InitialForm();
      scammersImage := None;
      otherDocuments := None;
      this.isOpen := isOpen;
    }

    /** `handleInputChange`: the input's `name` picks the field. */
    method HandleInputChange(name: string, value: string)
      modifies this
      ensures formData == SetField(old(formData), name, value)
      ensures scammersImage == old(scammersImage) && otherDocuments == old(otherDocuments)
      ensures isOpen == old(isOpen)
    {
      formData := SetField(formData, name, value);
    }

    /** The bank select's `onValueChange`. */
    method SelectBank(value: string)
      modifies this
      ensures formData == SetField(old(formData), "scammers_bank", value)
      ensures scammersImage == old(scammersImage) && otherDocuments == old(otherDocuments)
      ensures isOpen == old(isOpen)
    {
      formData := SetField(formData, "scammers_bank", value);
    }

    /** `handleFileChange`: the first chosen file goes to the slot `fileType`
        names; no file (or no file list) changes nothing. */
    method HandleFileChange(files: Option<seq<File>>, fileType: FileKind)
      modifies this
      ensures formData == old(formData) && isOpen == old(isOpen)
      ensures files.None? || |files.value| == 0 ==>
        scammersImage == old(scammersImage) && otherDocuments == old(otherDocuments)
      ensures files.Some? && |files.value| > 0 && fileType == Image ==>
        scammersImage == Some(files.value[0]) && otherDocuments == old(otherDocuments)
      ensures files.Some? && |files.value| > 0 && fileType == Documents ==>
        otherDocuments == Some(files.value[0]) && scammersImage == old(scammersImage)
    {
      if files.Some? && |files.value| > 0 {
        var file := files.value[0];
        if fileType == Image {
          scammersImage := Some(file);
        } else {
          otherDocuments := Some(file);
        }
      }
    }

    /** The `FormData` construction of `handleSubmit`. */
    method BuildPayload() returns (payload: seq<FormPart>)
      ensures payload == Payload(formData, scammersImage, otherDocuments)
    {
      payload := [];
      for i := 0 to |formData|
        invariant payload == TextParts(formData[..i])
      {
        payload := payload + [TextPart(formData[i].0, formData[i].1)];
      }
      assert formData[..|formData|] == formData;
      if scammersImage.Some? {
        payload := payload + [FilePart(ImageKey, scammersImage.value)];
      }
      if otherDocuments.Some? {
        payload := payload + [FilePart(DocumentsKey, otherDocuments.value)];
      }
    }

    /** The Cancel button: `onOpenChange(false)`; the form is kept. */
    method Cancel()
      modifies this
      ensures !isOpen
      ensures formData == old(formData) && scammersImage == old(scammersImage)
      ensures otherDocuments == old(otherDocuments)
    {
      isOpen := false;
    }

    /** `handleSubmit`: build the payload and create the report; on success
        reset the form and both slots and close the dialog; on failure leave
        everything as it was. Returns the payload that was sent. */
    method HandleSubmit(store: ScamReportsStore, response: Outcome<ScamReport>) returns (payload: seq<FormPart>)
      modifies this, store
      ensures payload == Payload(old(formData), old(scammersImage), old(otherDocuments))
      ensures store.banks == old(store.banks) && !store.loading
      ensures response.Success? ==>
        && store.reports == [response.data] + old(store.reports) && store.error == old(store.error)
        && formData == InitialForm() && scammersImage == None && otherDocuments == None && !isOpen
      ensures response.Failure? ==>
        && store.reports == old(store.reports) && store.error == Some(CreateReportFailed)
        && formData == old(formData) && scammersImage == old(scammersImage)
        && otherDocuments == old(otherDocuments) && isOpen == old(isOpen)
    {
      payload := BuildPayload();
      var raised := store.CreateReport(payload, response);
      if raised.None? {
        formData := InitialForm();
        scammersImage := None;
        otherDocuments := None;
        isOpen := false;
      }
    }
  }
}
