/** Whether signed URLs outlive the run, and the install allowance
    (src/colab_cli/job/planner.py, src/colab_cli/job/install.py). */
module UrlExpiry {
  import opened Options
  import opened JobModels

  const URL_SLACK := 900
  const INSTALL_ATTEMPT_TIMEOUT := 1500
  const INSTALL_PROBE_TIMEOUT := 60
  /** The longest the install phase's kernel call may take. */
  const INSTALL_ALLOWANCE := 2 * INSTALL_ATTEMPT_TIMEOUT + 3 * INSTALL_PROBE_TIMEOUT + 120

  datatype Purpose = ForData | ForArtifact | ForControl

  datatype Field = DataUrl(index: nat) | ArtifactUrl(index: nat) | ControlUrl(log: bool, get: bool)

  datatype UrlItem = UrlItem(field: Field, url: string, purpose: Purpose)

  function ChannelItems(channel: Option<ControlChannel>, log: bool): seq<UrlItem> {
    if channel.None? then []
    else
      (if channel.value.putUrl == "" then [] else [UrlItem(ControlUrl(log, false), channel.value.putUrl, ForControl)])
      + (if channel.value.getUrl == "" then [] else [UrlItem(ControlUrl(log, true), channel.value.getUrl, ForControl)])
  }

  /** `_url_items`. */
  function UrlItems(spec: JobSpec): seq<UrlItem> {
    seq(|spec.data|, i requires 0 <= i < |spec.data| => UrlItem(DataUrl(i), spec.data[i].url, ForData))
    + seq(|spec.artifacts|,
          i requires 0 <= i < |spec.artifacts| => UrlItem(ArtifactUrl(i), spec.artifacts[i].url, ForArtifact))
    + ChannelItems(spec.result, false) + ChannelItems(spec.log, true)
  }

  /** What install may still take. */
  function Allowance(spec: JobSpec): nat {
    if spec.deps == [] then 0 else INSTALL_ALLOWANCE
  }

  /** How long a URL must stay valid from now. */
  function Required(spec: JobSpec, purpose: Purpose, afterInstall: bool): nat {
    var data := spec.wallClock + URL_SLACK + (if afterInstall then 0 else Allowance(spec));
    var budget := spec.retryBudget + URL_SLACK;
    if !purpose.ForControl? || afterInstall || budget < data then data else budget
  }

  /** When a URL expires: as its signature says, else as the plan recorded
      it, else not known. */
  function ExpiryOf(item: UrlItem, parse: string -> Option<real>, stored: map<Field, real>): Option<real> {
    if parse(item.url).Some? then parse(item.url)
    else if item.field in stored then Some(stored[item.field])
    else None
  }

  /** Valid for `seconds` from `now`. */
  predicate Lasts(expiry: real, now: real, seconds: nat) {
    expiry >= now + seconds as real
  }

  predicate TooSoon(spec: JobSpec, item: UrlItem, now: real, afterInstall: bool, parse: string -> Option<real>,
                    stored: map<Field, real>)
  {
    var expiry := ExpiryOf(item, parse, stored);
    expiry.Some? && !Lasts(expiry.value, now, Required(spec, item.purpose, afterInstall))
  }

  /** The fields among `items` that expire too soon, in order. */
  function TooSoonFields(spec: JobSpec, items: seq<UrlItem>, now: real, afterInstall: bool,
                         parse: string -> Option<real>,
                         stored: map<Field, real>): seq<Field>
  {
    if items == [] then []
    else
      var last := items[|items| - 1];
      TooSoonFields(spec, items[..|items| - 1], now, afterInstall, parse, stored)
      + (if TooSoon(spec, last, now, afterInstall, parse, stored) then [last.field] else [])
  }

  lemma {:induction false} NoFieldsIff(spec: JobSpec, items: seq<UrlItem>, now: real, afterInstall: bool,
                                       parse: string -> Option<real>, stored: map<Field, real>)
    ensures TooSoonFields(spec, items, now, afterInstall, parse, stored) == [] <==>
            forall item | item in items :: !TooSoon(spec, item, now, afterInstall, parse, stored)
  {
    if items != [] {
      var init, last := items[..|items| - 1], items[|items| - 1];
      NoFieldsIff(spec, init, now, afterInstall, parse, stored);
      assert items == init + [last];
    }
  }

  /** What data and artifact URLs need, and what control URLs need. */
  method Deadlines(spec: JobSpec, afterInstall: bool) returns (dataSeconds: nat, controlSeconds: nat)
    ensures forall purpose: Purpose :: Required(spec, purpose, afterInstall) ==
              if purpose.ForControl? then controlSeconds else dataSeconds
  {
    dataSeconds := spec.wallClock + URL_SLACK;
    if spec.deps != [] && !afterInstall {
      dataSeconds := dataSeconds + INSTALL_ALLOWANCE;
    }
    controlSeconds := dataSeconds;
    if !afterInstall && spec.retryBudget + URL_SLACK >= dataSeconds {
      controlSeconds := spec.retryBudget + URL_SLACK;
    }
  }

  /** `expiry_problems`: exactly the fields that expire too soon, in order. */
  method ExpiryProblems(spec: JobSpec, now: real, afterInstall: bool, parse: string -> Option<real>,
                        stored: map<Field, real>)
    returns (problems: seq<Field>)
    ensures problems == TooSoonFields(spec, UrlItems(spec), now, afterInstall, parse, stored)
    ensures
      problems == [] <==> forall item | item in UrlItems(spec) :: !TooSoon(spec, item, now, afterInstall, parse, stored)
  {
    var dataSeconds, controlSeconds := Deadlines(spec, afterInstall);
    problems := [];
    var items := UrlItems(spec);
    for i := 0 to |items|
      invariant problems == TooSoonFields(spec, items[..i], now, afterInstall, parse, stored)
    {
      assert items[..i + 1][..i] == items[..i];
      var item := items[i];
      var expiry := parse(item.url);
      if expiry.None? && item.field in stored {
        expiry := Some(stored[item.field]);
      }
      assert expiry == ExpiryOf(item, parse, stored);
      if expiry.Some? {
        if !Lasts(expiry.value, now, if item.purpose.ForControl? then controlSeconds else dataSeconds) {
          problems := problems + [item.field];
        }
      }
    }
    assert items[..|items|] == items;
    NoFieldsIff(spec, items, now, afterInstall, parse, stored);
  }

  /** The install allowance is enough, and no less would be: a URL of data or
      artifacts that is in time before install is in time after it for every
      expiry exactly when install took no longer than the allowance. */
  lemma AllowanceIsExact(spec: JobSpec, purpose: Purpose, before: real, after: real)
    requires !purpose.ForControl?
    ensures
      (forall expiry: real ::
         Lasts(expiry, before, Required(spec, purpose, false)) ==> Lasts(expiry, after, Required(spec, purpose, true)))
      <==> after - before <= Allowance(spec) as real
  {
    if after - before > Allowance(spec) as real {
      var expiry := before + Required(spec, purpose, false) as real;
      assert Lasts(expiry, before, Required(spec, purpose, false));
      assert !Lasts(expiry, after, Required(spec, purpose, true));
    }
  }

  /** A plan with no expiry problem before install has none after it, for
      data, artifact and control URLs and any retry budget, when install kept
      to its allowance. */
  lemma InTimeStaysInTime(spec: JobSpec, before: real, after: real, parse: string -> Option<real>, stored: map<Field,
                          real>)
    requires after - before <= Allowance(spec) as real
    requires forall item | item in UrlItems(spec) :: !TooSoon(spec, item, before, false, parse, stored)
    ensures forall item | item in UrlItems(spec) :: !TooSoon(spec, item, after, true, parse, stored)
  {
    forall item | item in UrlItems(spec) ensures !TooSoon(spec, item, after, true, parse, stored) {
      assert !TooSoon(spec, item, before, false, parse, stored);
      assert Required(spec, item.purpose, false) >= Required(spec, item.purpose, true) + Allowance(spec);
    }
  }

  // -- durations ------------------------------------------------------------------

  datatype Duration = Duration(hours: nat, minutes: nat) {
    function Seconds(): nat {
      hours * 3600 + minutes * 60
    }
  }

  /** `_duration`, as hours and minutes: never less than the seconds given,
      and less than a minute more. */
  function DurationOf(seconds: int): (d: Duration)
    ensures d.minutes < 60
    ensures d.Seconds() >= seconds
    ensures seconds >= 0 ==> d.Seconds() < seconds + 60
    ensures seconds <= 0 ==> d.Seconds() == 0
  {
    var total := ((if seconds > 0 then seconds else 0) + 59) / 60;
    Duration(total / 60, total % 60)
  }
}
