/** The responses the handlers send, as values: the templating, JSON and
    redirect machinery of the framework is not modelled. */
module Http {
  import opened Wrappers
  import opened UrlRecords

  datatype Response =
    | RenderHome(urls: seq<Record>)                  // res.render('home', { urls })
    | JsonList(urls: seq<Record>)                    // res.json(shortUrls)
    | JsonError(status: nat, field: string, text: string)  // res.status(s).json({ field: text })
    | Redirect(location: string)                     // res.redirect(location), status 302
    | StatusOnly(status: nat)                        // res.sendStatus(status)
    | Unhandled                                      // the async handler rejected without answering
  {
    /** The HTTP status the response carries; `Unhandled` carries none. */
    function Status(): Option<nat>
    {
      match this
      case RenderHome(_) => Some(200)
      case JsonList(_) => Some(200)
      case JsonError(s, _, _) => Some(s)
      case Redirect(_) => Some(302)
      case StatusOnly(s) => Some(s)
      case Unhandled => None
    }
  }
}
