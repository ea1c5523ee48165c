/**
 * Registering a published stream with the application server: the request record
 * (`StreamCreationRequestDto`) and `registerStreamWithServer`, shared by both RTMP publishers.
 * Java `null` strings are `None`. The JSON encoding and the HTTP exchange are not modelled: the
 * exchange is an input, the status code it returned or `None` when it threw.
 */
module Registration {
  import opened Wrappers

  const ServerUrl: string := "http://localhost:8080"
  const StreamsPath: string := "/api/streams"

  /** The request record: three string properties, each with a getter and a setter. */
  class StreamCreationRequestDto {
    var streamName: Option<string>
    var rtspUrl: Option<string>
    var description: Option<string>

    /** The no-argument constructor: every property is null. */
    constructor Empty()
      ensures streamName.None? && rtspUrl.None? && description.None?
    {
      streamName, rtspUrl, description := None, None, None;
    }

    /** The three-argument constructor stores its arguments unchanged. */
    constructor (streamName: Option<string>, rtspUrl: Option<string>, description: Option<string>)
      ensures this.streamName == streamName && this.rtspUrl == rtspUrl && this.description == description
    {
      this.streamName, this.rtspUrl, this.description := streamName, rtspUrl, description;
    }

    function GetStreamName(): Option<string>
      reads this
    {
      streamName
    }

    function GetRtspUrl(): Option<string>
      reads this
    {
      rtspUrl
    }

    function GetDescription(): Option<string>
      reads this
    {
      description
    }

    method SetStreamName(v: Option<string>)
      modifies this
      ensures streamName == v && rtspUrl == old(rtspUrl) && description == old(description)
    {
      streamName := v;
    }

    method SetRtspUrl(v: Option<string>)
      modifies this
      ensures rtspUrl == v && streamName == old(streamName) && description == old(description)
    {
      rtspUrl := v;
    }

    method SetDescription(v: Option<string>)
      modifies this
      ensures description == v && streamName == old(streamName) && rtspUrl == old(rtspUrl)
    {
      description := v;
    }
  }

  /** The three properties as a serialiser reads them through the getters. */
  datatype RequestFields = RequestFields(streamName: Option<string>, rtspUrl: Option<string>, description: Option<string>)

  /**
   * Building a record either way gives the same properties: the three-argument constructor, or the
   * no-argument one followed by the three setters in any order; each getter then returns what was
   * stored, and a later setter never disturbs a property set earlier.
   */
  method ConstructionsAgree(name: Option<string>, url: Option<string>, desc: Option<string>)
    returns (direct: RequestFields, viaSetters: RequestFields, reversed: RequestFields)
    ensures direct == viaSetters == reversed == RequestFields(name, url, desc)
  {
    var a := new StreamCreationRequestDto(name, url, desc);
    direct := RequestFields(a.GetStreamName(), a.GetRtspUrl(), a.GetDescription());
    var b := new StreamCreationRequestDto.Empty();
    b.SetStreamName(name);
    b.SetRtspUrl(url);
    b.SetDescription(desc);
    viaSetters := RequestFields(b.GetStreamName(), b.GetRtspUrl(), b.GetDescription());
    var c := new StreamCreationRequestDto.Empty();
    c.SetDescription(desc);
    c.SetRtspUrl(url);
    c.SetStreamName(name);
    reversed := RequestFields(c.GetStreamName(), c.GetRtspUrl(), c.GetDescription());
  }

  /**
   * Overwriting one property of a fully built record, with any of the three setters, changes what its
   * getter returns and leaves the other two getters as they were; a fresh empty record reads null
   * everywhere.
   */
  method SetterIsolation(name: Option<string>, url: Option<string>, desc: Option<string>, v: Option<string>)
    returns (before: RequestFields, afterName: RequestFields, afterUrl: RequestFields, afterDesc: RequestFields,
             empty: RequestFields)
    ensures before == RequestFields(name, url, desc)
    ensures afterName == RequestFields(v, url, desc)
    ensures afterUrl == RequestFields(name, v, desc)
    ensures afterDesc == RequestFields(name, url, v)
    ensures empty == RequestFields(None, None, None)
  {
    var dto := new StreamCreationRequestDto(name, url, desc);
    before := RequestFields(dto.GetStreamName(), dto.GetRtspUrl(), dto.GetDescription());
    var byName := new StreamCreationRequestDto(name, url, desc);
    byName.SetStreamName(v);
    afterName := RequestFields(byName.GetStreamName(), byName.GetRtspUrl(), byName.GetDescription());
    var byUrl := new StreamCreationRequestDto(name, url, desc);
    byUrl.SetRtspUrl(v);
    afterUrl := RequestFields(byUrl.GetStreamName(), byUrl.GetRtspUrl(), byUrl.GetDescription());
    var byDesc := new StreamCreationRequestDto(name, url, desc);
    byDesc.SetDescription(v);
    afterDesc := RequestFields(byDesc.GetStreamName(), byDesc.GetRtspUrl(), byDesc.GetDescription());
    var e := new StreamCreationRequestDto.Empty();
    empty := RequestFields(e.GetStreamName(), e.GetRtspUrl(), e.GetDescription());
  }

  /** How a registration attempt ended, by the status code of the reply or the exception. */
  datatype RegistrationOutcome =
    | Registered(status: int)   // a 2xx reply
    | Rejected(status: int)     // any other reply
    | Failed                    // the exchange threw (I/O error or interrupt)

  predicate IsSuccessStatus(status: int) {
    200 <= status < 300
  }

  function Outcome(reply: Option<int>): (r: RegistrationOutcome)
    ensures r.Registered? <==> reply.Some? && 200 <= reply.value < 300
    ensures r.Rejected? <==> reply.Some? && (reply.value < 200 || reply.value >= 300)
    ensures r.Failed? <==> reply.None?
    ensures !r.Failed? ==> r.status == reply.value
  {
    match reply
    case None => Failed
    case Some(code) => if IsSuccessStatus(code) then Registered(code) else Rejected(code)
  }

  /**
   * `registerStreamWithServer(name, rtspUrl, description)`: builds the record with the
   * three-argument constructor and posts what its getters return to the server's stream endpoint.
   */
  method RegisterStreamWithServer(name: string, rtspUrl: string, description: string, reply: Option<int>)
    returns (endpoint: string, sent: RequestFields, outcome: RegistrationOutcome)
    ensures endpoint == "http://localhost:8080/api/streams"
    ensures sent == RequestFields(Some(name), Some(rtspUrl), Some(description))
    ensures outcome == Outcome(reply)
  {
    var dto := new StreamCreationRequestDto(Some(name), Some(rtspUrl), Some(description));
    sent := RequestFields(dto.GetStreamName(), dto.GetRtspUrl(), dto.GetDescription());
    endpoint := ServerUrl + StreamsPath;
    outcome := Outcome(reply);
  }
}
