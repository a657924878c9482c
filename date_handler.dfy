/** The date-stamping middleware: request bodies get SQLite-style timestamps
    according to the HTTP method. The clock is not modelled: the caller passes
    the `Date.prototype.toISOString` text of "now". */
module DateHandler {

  /** `s.replace(target, replacement)` for a one-character string pattern:
      only the first occurrence of `target` is replaced. */
  function ReplaceFirst(s: string, target: char, replacement: string): (r: string)
    ensures target !in s ==> r == s
    ensures target in s ==> |r| == |s| - 1 + |replacement|
  {
    if |s| == 0 then s
    else if s[0] == target then replacement + s[1..]
    else [s[0]] + ReplaceFirst(s[1..], target, replacement)
  }

  /** When `i` is the first index of `target`, exactly that character is replaced. */
  lemma {:induction false} ReplaceFirstAt(s: string, target: char, replacement: string, i: nat)
    requires i < |s| && s[i] == target && target !in s[..i]
    ensures ReplaceFirst(s, target, replacement) == s[..i] + replacement + s[i + 1..]
  {
    if i > 0 {
      assert s[0] != target by { assert s[0] in s[..i]; }
      assert s[1..][..i - 1] == s[1..i];
      assert target !in s[1..][..i - 1] by {
        forall k | 0 <= k < i - 1 ensures s[1..][k] != target {
          assert s[1..][k] == s[..i][k + 1];
        }
      }
      ReplaceFirstAt(s[1..], target, replacement, i - 1);
      assert s[..i] == [s[0]] + s[1..i];
    }
  }

  /** `formatDateToSQLite`: the first 'T' becomes a space and the first 'Z' is dropped. */
  function FormatDateToSQLite(iso: string): (r: string)
    ensures IsIsoTimestamp(iso) ==> r == iso[..10] + " " + iso[11..23] && |r| == 23
  {
    var spaced := ReplaceFirst(iso, 'T', " ");
    IsoShape(iso, spaced);
    if IsIsoTimestamp(iso) then
      ReplaceFirstAt(spaced, 'Z', "", 23);
      ReplaceFirst(spaced, 'Z', "")
    else
      ReplaceFirst(spaced, 'Z', "")
  }

  /** What `toISOString` prints for a year between 0 and 9999:
      `YYYY-MM-DDTHH:mm:ss.sssZ`, where `#` stands for a decimal digit. */
  const IsoTemplate: string := "####-##-##T##:##:##.###Z"

  predicate FitsTemplate(c: char, t: char)
  {
    if t == '#' then '0' <= c <= '9' else c == t
  }

  predicate IsIsoTimestamp(s: string)
  {
    |s| == |IsoTemplate| && forall k :: 0 <= k < |s| ==> FitsTemplate(s[k], IsoTemplate[k])
  }

  /** In an ISO timestamp the only 'T' is at index 10, and once it is replaced the
      only 'Z' is the last character. */
  lemma IsoShape(iso: string, spaced: string)
    requires spaced == ReplaceFirst(iso, 'T', " ")
    ensures IsIsoTimestamp(iso) ==>
              spaced == iso[..10] + " " + iso[11..] &&
              |spaced| == 24 && spaced[23] == 'Z' && 'Z' !in spaced[..23]
  {
    if IsIsoTimestamp(iso) {
      assert iso[10] == 'T' by { assert FitsTemplate(iso[10], IsoTemplate[10]); }
      assert 'T' !in iso[..10] by {
        forall k | 0 <= k < 10 ensures iso[..10][k] != 'T' {
          assert iso[..10][k] == iso[k];
          assert FitsTemplate(iso[k], IsoTemplate[k]);
        }
      }
      ReplaceFirstAt(iso, 'T', " ", 10);
      forall k | 0 <= k < 23 ensures spaced[k] != 'Z' {
        if k != 10 {
          assert spaced[k] == iso[k];
          assert FitsTemplate(iso[k], IsoTemplate[k]);
        }
      }
      assert spaced[23] == iso[23] == 'Z' by {
        assert FitsTemplate(iso[23], IsoTemplate[23]);
      }
    }
  }

  /** A JSON value of a request body field. */
  datatype Json = JNull | JBool(b: bool) | JNumber(n: int) | JString(s: string)

  /** The part of an Express request the middleware reads and writes. */
  class Request {
    var httpMethod: string
    var body: map<string, Json>

    constructor (httpMethod: string, body: map<string, Json>)
      ensures this.httpMethod == httpMethod && this.body == body
    {
      this.httpMethod := httpMethod;
      this.body := body;
    }

    /** `handleDates`, with `isoNow` the `toISOString` text of the current time.
        Every field it writes gets the same formatted timestamp. */
    method HandleDates(isoNow: string)
      modifies this
      ensures httpMethod == old(httpMethod)
      ensures var now := JString(FormatDateToSQLite(isoNow));
              if httpMethod == "POST" then
                body == old(body)["dateCreated" := now]["dateModified" := now]["dateDeleted" := JNull]
              else if httpMethod == "PUT" || httpMethod == "PATCH" then
                body == old(body)["dateModified" := now]
              else if httpMethod == "DELETE" then
                body == old(body)["dateDeleted" := now]
              else
                body == old(body)
    {
      var formattedNow := JString(FormatDateToSQLite(isoNow));
      if httpMethod == "POST" {
        body := body["dateCreated" := formattedNow];
        body := body["dateModified" := formattedNow];
        body := body["dateDeleted" := JNull];
      } else if httpMethod == "PUT" || httpMethod == "PATCH" {
        body := body["dateModified" := formattedNow];
      } else if httpMethod == "DELETE" {
        body := body["dateDeleted" := formattedNow];
      }
    }
  }
}
