/** The resource record that the ingestion pipeline builds and persists. */
module ResourceModel {

  /** Placeholder for a field that has no value yet (absent host, title, ...). */
  const Sentinel: string := "-"
  /** `live_status` of a record whose URL is not known to be dead. */
  const Live: string := "1"
  /** `live_status` of a record whose URL is known to be dead. */
  const Dead: string := "0"
  /** Provenance tag for records created by the pipeline rather than by a person. */
  const ApiUser: string := "api"

  /** The thirteen string fields of `Resource`, in declaration order. */
  datatype Resource = Resource(
    uriUuid: string,
    url: string,
    scheme: string,
    host: string,
    path: string,
    liveStatus: string,
    title: string,
    autoDescr: string,
    manDescr: string,
    creaUser: string,
    creaTime: string,
    modiUser: string,
    modiTime: string)

  /**
   * `Resource::default`: a blank record, presumed live, with sentinel URL
   * components and text, no identifier, no manual description, no times,
   * and both provenance tags set to the pipeline's own.
   */
  function Default(): (r: Resource)
    ensures r.liveStatus == Live
    ensures forall f <- [r.url, r.scheme, r.host, r.path, r.title, r.autoDescr] :: f == Sentinel
    ensures r.uriUuid == "" && r.manDescr == ""
    ensures r.creaUser == r.modiUser == ApiUser
    ensures r.creaTime == r.modiTime == ""
  {
    Resource(
      uriUuid := "",
      url := Sentinel,
      scheme := Sentinel,
      host := Sentinel,
      path := Sentinel,
      liveStatus := Live,
      title := Sentinel,
      autoDescr := Sentinel,
      manDescr := "",
      creaUser := ApiUser,
      creaTime := "",
      modiUser := ApiUser,
      modiTime := "")
  }
}
