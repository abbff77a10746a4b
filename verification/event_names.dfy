/** `getEventNames`: runs `opreport -X -d`, reads the profile's setup
    element from the resulting document and collects one name per event
    (or timer) setup element. The document the parser would build from the
    output is an input. */
module EventNames {

  import opened Base
  import opened Trace
  import opened Opreport
  import opened Dom

  /** The ModelDataAdapter element and attribute names the lookup uses. */
  datatype Tags = Tags(
    profile: string,
    setup: string,
    eventSetup: string,
    eventName: string,
    timerSetup: string,
    rtcInterrupts: string)

  /** Result of `DocumentBuilder.parse` on the opreport output. */
  datatype DomParse =
    | Parsed(root: Element)
    | DomIoError       // IOException
    | DomConfigError   // ParserConfigurationException
    | DomSaxError      // SAXException

  const QUERY_ARGS: seq<string> := ["-X", "-d"]

  /** The setup child and attribute name to read, chosen by timer mode. */
  function SetupSelection(tags: Tags, timerSupport: bool): (string, string)
  {
    if !timerSupport then (tags.eventSetup, tags.eventName) else (tags.timerSetup, tags.rtcInterrupts)
  }

  /** `elm.getAttribute(name)` for every element, in order. */
  function AttributeValues(es: seq<Element>, name: string): (r: seq<string>)
    ensures |r| == |es|
    ensures forall i :: 0 <= i < |es| ==> r[i] == GetAttribute(es[i], name)
  {
    seq(|es|, i requires 0 <= i < |es| => GetAttribute(es[i], name))
  }

  /** The loop that fills the answer: an array as long as the setup list,
      with entry i set to element i's attribute. */
  method FillNames(list: seq<Element>, name: string) returns (names: seq<string>)
    ensures |names| == |list|
    ensures forall i :: 0 <= i < |list| ==> names[i] == GetAttribute(list[i], name)
    ensures names == AttributeValues(list, name)
  {
    var ret := new string[|list|];
    var i := 0;
    while i < |list|
      invariant 0 <= i <= |list|
      invariant forall k :: 0 <= k < i ==> ret[k] == GetAttribute(list[k], name)
    {
      ret[i] := GetAttribute(list[i], name);
      i := i + 1;
    }
    names := ret[..];
  }

  /** `getEventNames`. No output from opreport, or a document that fails
      to parse, answers null (None), with a dialog for I/O and SAX errors; a
      document without a profile element or without a setup element under
      it makes the Java code dereference null. */
  function GetEventNames(tags: Tags, timerSupport: bool, host: Host, dom: DomParse): (r: Step<Option<seq<string>>>)
    ensures var report := RunOpreport(host, QUERY_ARGS);
            |r.trace| >= |report.trace| && r.trace[..|report.trace|] == report.trace
    ensures RunOpreport(host, QUERY_ARGS).output.None? ==>
              r == Done(None, RunOpreport(host, QUERY_ARGS).trace)
    ensures r.Threw? ==> r.exc == NullPointer && dom.Parsed?
    ensures r.Done? && r.value.Some? ==> RunOpreport(host, QUERY_ARGS).output.Some? && dom.Parsed?
    ensures r.Done? && r.value.None? && RunOpreport(host, QUERY_ARGS).output.Some? ==> !dom.Parsed?
  {
    var report := RunOpreport(host, QUERY_ARGS);
    if report.output.None? then Done(None, report.trace)
    else
      match dom
      case DomIoError => Done(None, report.trace + [ErrorDialog(PARSE_DIALOG)])
      case DomConfigError => Done(None, report.trace)
      case DomSaxError => Done(None, report.trace + [ErrorDialog(SAX_DIALOG)])
      case Parsed(root) =>
        var profiles := DocumentElementsByTag(root, tags.profile);
        if |profiles| == 0 then Threw(NullPointer, report.trace)
        else
          var setups := ElementsByTag(profiles[0], tags.setup);
          if |setups| == 0 then Threw(NullPointer, report.trace)
          else
            var (setupTag, nameAttr) := SetupSelection(tags, timerSupport);
            Done(Some(AttributeValues(ElementsByTag(setups[0], setupTag), nameAttr)), report.trace)
  }

  /** Without timer support the names are the event-name attributes of the
      event setup elements under the profile's first setup element; with
      timer support they are the RTC-interrupts attributes of the timer
      setup elements. One name per element, in document order; an element
      without the attribute contributes "". */
  lemma NamesFollowTimerMode(tags: Tags, timerSupport: bool, host: Host, root: Element,
                             profile: Element, setup: Element)
    requires RunOpreport(host, QUERY_ARGS).output.Some?
    requires DocumentElementsByTag(root, tags.profile) != []
    requires profile == DocumentElementsByTag(root, tags.profile)[0]
    requires ElementsByTag(profile, tags.setup) != []
    requires setup == ElementsByTag(profile, tags.setup)[0]
    ensures var r := GetEventNames(tags, timerSupport, host, Parsed(root));
            var setups := ElementsByTag(setup, if timerSupport then tags.timerSetup else tags.eventSetup);
            var attr := if timerSupport then tags.rtcInterrupts else tags.eventName;
            && r.Done? && r.value.Some?
            && |r.value.value| == |setups|
            && forall i :: 0 <= i < |setups| ==> r.value.value[i] == GetAttribute(setups[i], attr)
  {
  }

  /** The opreport output is parsed only when it exists; a missing profile
      or setup element escapes as a null dereference rather than an empty
      answer. */
  lemma MissingSetupThrows(tags: Tags, timerSupport: bool, host: Host, root: Element)
    requires RunOpreport(host, QUERY_ARGS).output.Some?
    requires DocumentElementsByTag(root, tags.profile) == []
             || ElementsByTag(DocumentElementsByTag(root, tags.profile)[0], tags.setup) == []
    ensures GetEventNames(tags, timerSupport, host, Parsed(root)).Threw?
  {
  }

  /** A setup element placed directly under the first profile element is
      found by the descendant lookup, so no null is dereferenced and the
      answer is a (possibly empty) list of names. */
  lemma DirectSetupChildAnswers(tags: Tags, timerSupport: bool, host: Host, root: Element, i: nat)
    requires RunOpreport(host, QUERY_ARGS).output.Some?
    requires DocumentElementsByTag(root, tags.profile) != []
    requires i < |DocumentElementsByTag(root, tags.profile)[0].children|
    requires DocumentElementsByTag(root, tags.profile)[0].children[i].tag == tags.setup
    ensures var r := GetEventNames(tags, timerSupport, host, Parsed(root));
            r.Done? && r.value.Some?
  {
    ChildIsFound(DocumentElementsByTag(root, tags.profile)[0], i);
  }
}
