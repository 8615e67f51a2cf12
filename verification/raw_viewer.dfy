/** The raw-response viewer's download name: the domain guessed from the metrics URL, the
    date and a fixed suffix. */
module RawViewer {
  import opened Strings

  /** The name used when no domain can be read off the URL. */
  const Fallback := "metrics"

  /** `url.replace(/^(https?:\/\/)/, "")`: one leading `https://` or `http://` is dropped. */
  function StripProtocol(url: string): (r: string)
    ensures StartsWith(url, "https://") ==> url == "https://" + r
    ensures !StartsWith(url, "https://") && StartsWith(url, "http://") ==> url == "http://" + r
    ensures !StartsWith(url, "https://") && !StartsWith(url, "http://") ==> r == url
  {
    if StartsWith(url, "https://") then url[8..]
    else if StartsWith(url, "http://") then url[7..]
    else url
  }

  /** `hostname`: what precedes the first `/` once the protocol is gone. */
  function HostOf(url: string): (r: string)
    ensures '/' !in r
  {
    SplitPieces(StripProtocol(url), '/');
    Split(StripProtocol(url), '/')[0]
  }

  /** `parts[parts.length - 2] || "metrics"` */
  function SecondToLast(parts: seq<string>): string
  {
    if |parts| >= 2 && parts[|parts| - 2] != "" then parts[|parts| - 2] else Fallback
  }

  /** `getDomainFromUrl`: the second-to-last dot-separated label of the host, or `metrics`
      for an empty URL, a host with a single label, or an empty label. */
  function DomainFromUrl(url: string): string
  {
    if url == "" then Fallback else SecondToLast(Split(HostOf(url), '.'))
  }

  /** The domain is never empty and is a single label: it has no dot and no slash, so it is
      safe as the head of a file name. */
  lemma DomainShape(url: string)
    ensures DomainFromUrl(url) != ""
    ensures '.' !in DomainFromUrl(url) && '/' !in DomainFromUrl(url)
  {
    assert '.' !in Fallback && '/' !in Fallback;
    if url != "" {
      var host := HostOf(url);
      var parts := Split(host, '.');
      if |parts| >= 2 && parts[|parts| - 2] != "" {
        SplitPieces(host, '.');
        SubPiece(host, '.', '/', |parts| - 2);
      }
    }
  }

  /** A piece of a split has no character its whole lacks. */
  lemma SubPiece(s: string, sep: char, c: char, k: nat)
    requires c !in s
    requires k < |Split(s, sep)|
    ensures c !in Split(s, sep)[k]
  {
    JoinSplit(s, sep);
    if c != sep {
      JoinLacks(Split(s, sep), sep, k, c);
    } else {
      SplitPieces(s, sep);
    }
  }

  /** A character missing from a join is missing from every piece. */
  lemma {:induction false} JoinLacks(parts: seq<string>, sep: char, k: nat, c: char)
    requires k < |parts|
    requires c !in Join(parts, sep)
    ensures c !in parts[k]
  {
    if |parts| > 1 {
      var rest := Join(parts[1..], sep);
      assert Join(parts, sep) == parts[0] + [sep] + rest;
      if k > 0 {
        assert forall j :: 0 <= j < |rest| ==> rest[j] == Join(parts, sep)[|parts[0]| + 1 + j];
        JoinLacks(parts[1..], sep, k - 1, c);
      } else {
        assert forall j :: 0 <= j < |parts[0]| ==> parts[0][j] == Join(parts, sep)[j];
      }
    }
  }

  /** The protocol and path are cut away from a URL built from them. */
  lemma HostOfUrl(secure: bool, host: string, path: string)
    requires '/' !in host
    ensures HostOf((if secure then "https://" else "http://") + host + "/" + path) == host
  {
    var protocol := if secure then "https://" else "http://";
    var url := protocol + host + "/" + path;
    assert StripProtocol(url) == host + "/" + path by {
      assert url[..|protocol|] == protocol;
      assert url[|protocol|..] == host + "/" + path;
      if !secure {
        assert url[4] == ':';
      }
    }
    SplitAfter(host, path, '/');
  }

  /** For a URL built from a protocol, dot-separated host labels and a path, the domain is
      the label before the last one whenever that label is not empty. */
  lemma DomainOfHost(secure: bool, labels: seq<string>, path: string)
    requires |labels| >= 2
    requires forall i :: 0 <= i < |labels| ==> '.' !in labels[i] && '/' !in labels[i]
    requires labels[|labels| - 2] != ""
    ensures DomainFromUrl((if secure then "https://" else "http://") + Join(labels, '.') + "/" + path)
            == labels[|labels| - 2]
  {
    var host := Join(labels, '.');
    JoinFree(labels, '.', '/');
    HostOfUrl(secure, host, path);
    SplitJoin(labels, '.');
  }

  /** `server.demo.com` gives `demo`. */
  lemma ExampleSubdomain()
    ensures DomainFromUrl("https://server.demo.com/metrics") == "demo"
  {
    var labels := ["server", "demo", "com"];
    assert Join(labels, '.') == "server.demo.com" by {
      JoinCons("server", ["demo", "com"], '.');
      JoinCons("demo", ["com"], '.');
      assert ["server"] + ["demo", "com"] == labels;
    }
    assert "https://" + "server.demo.com" + "/" + "metrics" == "https://server.demo.com/metrics";
    DomainOfHost(true, labels, "metrics");
  }

  /** A host with a single label falls back to `metrics`. */
  lemma ExampleSingleLabel(host: string, path: string)
    requires '.' !in host && '/' !in host
    ensures DomainFromUrl("https://" + host + "/" + path) == Fallback
  {
    HostOfUrl(true, host, path);
  }

  /** `new Date().toISOString().split("T")[0]`: the calendar date of a timestamp. */
  function DateOf(iso: string): string
  {
    Split(iso, 'T')[0]
  }

  /** The download's file name: `${domain}-metrics-${date}.txt`. */
  function DownloadName(url: string, iso: string): (r: string)
    ensures |r| > |"-metrics-.txt"|
    ensures r[|r| - 4..] == ".txt"
    ensures |DomainFromUrl(url)| + 9 <= |r| && r[..|DomainFromUrl(url)| + 9] == DomainFromUrl(url) + "-metrics-"
  {
    DomainFromUrl(url) + "-metrics-" + DateOf(iso) + ".txt"
  }

  /** For an ISO timestamp `dateTtime`, the name carries the domain and exactly the date. */
  lemma DownloadNameOf(url: string, date: string, time: string)
    requires 'T' !in date
    ensures DownloadName(url, date + "T" + time) == DomainFromUrl(url) + "-metrics-" + date + ".txt"
  {
    SplitAfter(date, time, 'T');
  }
}
