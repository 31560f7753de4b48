/**
  The container's stdio stream, chosen by the scheme of a URI: the
  supervisor's own stdin and stdout, an append-only log file, or a network
  connection (TLS for "ssl" and "tls"). URL parsing, opening files and
  dialling are outside the model: the parsed URI is given, and `fails`
  says which opens or dials fail and with what error.
 */
module Stream {
  import opened Wrappers

  /** The parts of a parsed URI that the stream uses. */
  datatype Uri = Uri(scheme: string, host: string, path: string)

  /** The dial timeout. */
  const DialTimeoutSeconds: nat := 5

  datatype OpenFlag = Create | Append | WriteOnly

  /** What a stream reads from or writes to. */
  datatype Handle =
    | Stdin
    | Stdout
    | File(path: string, flags: set<OpenFlag>, perm: nat)
    | Conn(network: string, address: string, timeoutSeconds: nat)
    | TlsClient(conn: Handle, skipVerify: bool)

  /** `Input` is absent when the stream cannot be read from. */
  datatype Stream = Stream(input: Option<Handle>, output: Handle)

  /** The location a handle was opened or dialled at. */
  function Address(h: Handle): Option<string>
  {
    match h
    case File(p, _, _) => Some(p)
    case Conn(_, a, _) => Some(a)
    case TlsClient(c, _) => if c.Conn? then Some(c.address) else None
    case _ => None
  }

  /** Opens the stream a URI names. */
  function NewStream(uri: Result<Uri>, fails: Handle -> Option<string>): (r: Result<Stream>)
    ensures uri.Err? ==> r == Err(uri.msg)
    ensures uri.Ok? && uri.value.scheme == "" ==> r == Ok(Stream(Some(Stdin), Stdout))
    ensures r.Ok? ==> (r.value.input.None? <==> uri.value.scheme == "file")
    ensures r.Ok? && uri.value.scheme != "" ==> Address(r.value.output) == Some(uri.value.host + uri.value.path)
    ensures r.Ok? && uri.value.scheme !in {"", "file"} ==> r.value.input == Some(r.value.output)
    ensures uri.Ok? && r.Err? ==> exists h :: fails(h) == Some(r.msg)
  {
    if uri.Err? then Err(uri.msg)
    else
      var u := uri.value;
      var path := u.host + u.path;
      if u.scheme == "" then Ok(Stream(Some(Stdin), Stdout))
      else if u.scheme == "file" then
        var f := File(path, {Create, Append, WriteOnly}, 0x180);
        if fails(f).Some? then Err(fails(f).value) else Ok(Stream(None, f))
      else if u.scheme == "ssl" || u.scheme == "tls" then
        var c := Conn("tcp", path, DialTimeoutSeconds);
        if fails(c).Some? then Err(fails(c).value)
        else
          var t := TlsClient(c, true);
          Ok(Stream(Some(t), t))
      else
        var c := Conn(u.scheme, path, DialTimeoutSeconds);
        if fails(c).Some? then Err(fails(c).value) else Ok(Stream(Some(c), c))
  }

  /** A file stream appends to the file, creating it with mode 0600, and
      cannot be read from. */
  lemma FileStream(host: string, path: string, fails: Handle -> Option<string>)
    ensures var f := File(host + path, {Create, Append, WriteOnly}, 0x180);
      NewStream(Ok(Uri("file", host, path)), fails) ==
        if fails(f).Some? then Err(fails(f).value) else Ok(Stream(None, f))
  {
  }

  /** "ssl" and "tls" open the same stream: a TLS client over a TCP dial
      with the 5-second timeout, certificate checks skipped. */
  lemma SslIsTls(host: string, path: string, fails: Handle -> Option<string>)
    ensures NewStream(Ok(Uri("ssl", host, path)), fails) == NewStream(Ok(Uri("tls", host, path)), fails)
    ensures NewStream(Ok(Uri("tls", host, path)), fails).Ok? ==>
      NewStream(Ok(Uri("tls", host, path)), fails).value.output ==
        TlsClient(Conn("tcp", host + path, DialTimeoutSeconds), true)
  {
  }

  /** Any other scheme is the network to dial. */
  lemma OtherSchemeDials(scheme: string, host: string, path: string, fails: Handle -> Option<string>)
    requires scheme !in {"", "file", "ssl", "tls"}
    ensures var c := Conn(scheme, host + path, DialTimeoutSeconds);
      NewStream(Ok(Uri(scheme, host, path)), fails) ==
        if fails(c).Some? then Err(fails(c).value) else Ok(Stream(Some(c), c))
  {
  }

  /** The handles `Close` closes, in order: the input when there is one,
      then the output. Every handle the stream can hold is closable. */
  function Closes(s: Stream): (cs: seq<Handle>)
    ensures |cs| == (if s.input.Some? then 2 else 1)
    ensures cs[|cs| - 1] == s.output
    ensures s.input.Some? ==> cs[0] == s.input.value
  {
    (if s.input.Some? then [s.input.value] else []) + [s.output]
  }

  /** Closing a stream just opened closes the supervisor's own stdin and
      stdout for the empty scheme, the file once for "file", and the one
      connection twice for any network scheme. */
  lemma CloseAfterOpen(uri: Uri, fails: Handle -> Option<string>)
    requires NewStream(Ok(uri), fails).Ok?
    ensures var s := NewStream(Ok(uri), fails).value;
      Closes(s) ==
        if uri.scheme == "" then [Stdin, Stdout]
        else if uri.scheme == "file" then [s.output]
        else [s.output, s.output]
  {
  }
}
