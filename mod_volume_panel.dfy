/** The volume-row policy that GravityBox's ModVolumePanel lays over the
    SystemUI volume dialog: three preference flags, the host's list of volume
    rows, the default-stream update, the extra notification row, and the two
    after-hooks that decide a row's visibility and its slider enablement. */
module ModVolumePanel {

  // Stream type codes, as android.media.AudioManager defines them.
  type StreamType = int
  const StreamVoiceCall: StreamType := 0
  const StreamRing: StreamType := 2
  const StreamMusic: StreamType := 3
  const StreamAlarm: StreamType := 4
  const StreamNotification: StreamType := 5

  /** One VolumeRow of the host dialog, reduced to what this module reads or
      writes. `sliderEnabled` and `iconEnabled` are the enabled states of the
      row's slider and icon views; `gbNotifSlider` is the extra tag this
      module attaches to the notification row it adds. */
  datatype Row = Row(stream: StreamType, defaultStream: bool, sliderEnabled: bool,
                     iconEnabled: bool, gbNotifSlider: bool)

  datatype Option<T> = None | Some(value: T)

  /** A stored preference as the start-up read sees it: unset, or a boolean. */
  function PrefBoolean(stored: Option<bool>, default: bool): (r: bool) {
    match stored
    case Some(b) => b
    case None => default
  }

  /** The three preferences read once at start-up. */
  datatype Prefs = Prefs(volForceRingControl: Option<bool>, linkVolumes: Option<bool>,
                         volExpanded: Option<bool>)

  /** An intent extra: absent, a boolean, or a value of another type (or null),
      for which a boolean read yields the caller's default. */
  datatype Extra = Missing | BoolValue(b: bool) | OtherValue

  predicate HasExtra(e: Extra) {
    !e.Missing?
  }

  function BooleanExtra(e: Extra, default: bool): (r: bool) {
    match e
    case BoolValue(b) => b
    case _ => default
  }

  /** Only the media-control preference action matters here; every other
      action is one value. */
  datatype Action = ActionPrefMediaControlChanged | OtherAction

  datatype Intent = Intent(action: Action, volForceRingControl: Extra, volLinked: Extra,
                           volExpanded: Extra)

  predicate HasStream(rows: seq<Row>, stream: StreamType) {
    exists i :: 0 <= i < |rows| && rows[i].stream == stream
  }

  /** Row `i` is the first row of `stream` in list order. */
  predicate IsFirstOf(rows: seq<Row>, stream: StreamType, i: int) {
    0 <= i < |rows| && rows[i].stream == stream &&
    forall j :: 0 <= j < i ==> rows[j].stream != stream
  }

  /** The tags this module attaches are consistent: only a NOTIFICATION row is
      tagged, and no two rows are. */
  predicate TagsConsistent(rows: seq<Row>) {
    (forall i :: 0 <= i < |rows| && rows[i].gbNotifSlider ==> rows[i].stream == StreamNotification) &&
    (forall i, j :: 0 <= i < |rows| && 0 <= j < |rows| && rows[i].gbNotifSlider && rows[j].gbNotifSlider ==> i == j)
  }

  /** Row `k` is the one and only tagged row. */
  predicate OnlyTaggedAt(rows: seq<Row>, k: int) {
    0 <= k < |rows| && rows[k].gbNotifSlider &&
    forall j :: 0 <= j < |rows| && rows[j].gbNotifSlider ==> j == k
  }

  /** A row as the host's addRow builds it for the notification stream: it
      carries the NOTIFICATION stream (its tag is set after the append). */
  predicate IsAddedNotificationRow(added: Row) {
    added.stream == StreamNotification
  }

  // ---------------------------------------------------------------------
  // isRingerSliderEnabled

  /** The enabled state of the ringer slider: that of the first RING row, and
      true (fail open) when there is no RING row. */
  function RingerSliderEnabled(rows: seq<Row>): (r: bool)
    ensures !HasStream(rows, StreamRing) ==> r
    ensures forall i :: IsFirstOf(rows, StreamRing, i) ==> r == rows[i].sliderEnabled
  {
    if rows == [] then true
    else if rows[0].stream == StreamRing then rows[0].sliderEnabled
    else
      assert forall i :: IsFirstOf(rows, StreamRing, i) ==> IsFirstOf(rows[1..], StreamRing, i - 1);
      RingerSliderEnabled(rows[1..])
  }

  // ---------------------------------------------------------------------
  // updateDefaultStream

  /** One iteration of updateDefaultStream on one row. */
  function WithDefaultStream(row: Row, forceRingControl: bool): (r: Row)
    ensures r == row.(defaultStream := r.defaultStream)
    ensures row.stream == StreamMusic ==> r.defaultStream == !forceRingControl
    ensures row.stream == StreamRing ==> r.defaultStream == forceRingControl
    ensures row.stream != StreamMusic && row.stream != StreamRing ==> r == row
  {
    if row.stream == StreamMusic then row.(defaultStream := !forceRingControl)
    else if row.stream == StreamRing then row.(defaultStream := forceRingControl)
    else row
  }

  /** The row list after updateDefaultStream: MUSIC rows are the default
      stream unless ring control is forced, RING rows exactly when it is, and
      every other row, the row count and the order are left as they were. */
  function DefaultStreamApplied(rows: seq<Row>, forceRingControl: bool): (r: seq<Row>)
    ensures |r| == |rows|
    ensures forall i :: 0 <= i < |rows| && rows[i].stream == StreamMusic ==>
              r[i] == rows[i].(defaultStream := !forceRingControl)
    ensures forall i :: 0 <= i < |rows| && rows[i].stream == StreamRing ==>
              r[i] == rows[i].(defaultStream := forceRingControl)
    ensures forall i :: 0 <= i < |rows| && rows[i].stream != StreamMusic && rows[i].stream != StreamRing ==>
              r[i] == rows[i]
  {
    if rows == [] then []
    else
      var rest := DefaultStreamApplied(rows[1..], forceRingControl);
      assert forall i :: 1 <= i < |rows| ==> ([WithDefaultStream(rows[0], forceRingControl)] + rest)[i] == rest[i - 1];
      [WithDefaultStream(rows[0], forceRingControl)] + rest
  }

  /** After the update, a MUSIC row and a RING row are never both, nor both
      not, the default stream. */
  lemma DefaultStreamExclusive(rows: seq<Row>, forceRingControl: bool, i: int, j: int)
    requires 0 <= i < |rows| && 0 <= j < |rows|
    requires rows[i].stream == StreamMusic && rows[j].stream == StreamRing
    ensures DefaultStreamApplied(rows, forceRingControl)[i].defaultStream
            != DefaultStreamApplied(rows, forceRingControl)[j].defaultStream
  {
  }

  /** The update never changes a row's stream or tag, so it keeps the tag
      invariant and the presence of every stream. */
  lemma DefaultStreamKeepsStreams(rows: seq<Row>, forceRingControl: bool)
    ensures var r := DefaultStreamApplied(rows, forceRingControl);
            forall i :: 0 <= i < |rows| ==> r[i].stream == rows[i].stream && r[i].gbNotifSlider == rows[i].gbNotifSlider
    ensures TagsConsistent(rows) ==> TagsConsistent(DefaultStreamApplied(rows, forceRingControl))
    ensures forall s :: HasStream(rows, s) <==> HasStream(DefaultStreamApplied(rows, forceRingControl), s)
  {
  }

  /** Only the last value of the force-ring flag matters: updating twice is
      the same as updating once with the second value. */
  lemma DefaultStreamLastWins(rows: seq<Row>, first: bool, second: bool)
    ensures DefaultStreamApplied(DefaultStreamApplied(rows, first), second)
            == DefaultStreamApplied(rows, second)
  {
  }

  // ---------------------------------------------------------------------
  // prepareNotificationRow

  /** The row list after prepareNotificationRow: unchanged when a NOTIFICATION
      row exists; otherwise the row `added` that the host's addRow appends,
      tagged. */
  function WithNotificationRow(rows: seq<Row>, added: Row): (r: seq<Row>)
    ensures HasStream(rows, StreamNotification) ==> r == rows
    ensures !HasStream(rows, StreamNotification) ==>
              |r| == |rows| + 1 && r[..|rows|] == rows &&
              r[|rows|] == added.(gbNotifSlider := r[|rows|].gbNotifSlider) && r[|rows|].gbNotifSlider
  {
    if HasStream(rows, StreamNotification) then rows
    else rows + [added.(gbNotifSlider := true)]
  }

  /** Either the list is left exactly as it was, or exactly one tagged
      NOTIFICATION row is appended at the end; afterwards a NOTIFICATION row
      always exists. */
  lemma NotificationRowAppended(rows: seq<Row>, added: Row)
    requires IsAddedNotificationRow(added)
    ensures var r := WithNotificationRow(rows, added);
            HasStream(r, StreamNotification) &&
            (HasStream(rows, StreamNotification) ==> r == rows) &&
            (!HasStream(rows, StreamNotification) ==>
               |r| == |rows| + 1 && r[..|rows|] == rows &&
               r[|rows|].stream == StreamNotification && r[|rows|].gbNotifSlider)
  {
  }

  /** Calling prepareNotificationRow twice is the same as calling it once,
      whatever row the host would build the second time. */
  lemma NotificationRowIdempotent(rows: seq<Row>, added: Row, again: Row)
    requires IsAddedNotificationRow(added)
    ensures WithNotificationRow(WithNotificationRow(rows, added), again) == WithNotificationRow(rows, added)
  {
  }

  /** The append keeps the tag invariant, and a row it appends is then the
      only tagged row. */
  lemma NotificationRowKeepsTags(rows: seq<Row>, added: Row)
    requires TagsConsistent(rows) && IsAddedNotificationRow(added)
    ensures TagsConsistent(WithNotificationRow(rows, added))
    ensures !HasStream(rows, StreamNotification) ==> OnlyTaggedAt(WithNotificationRow(rows, added), |rows|)
  {
  }

  /** The initDialog hook is idempotent: a second dialog init with the same
      flag leaves the rows as the first one left them, on a Samsung ROM (no
      notification row is prepared) as on any other. */
  lemma InitDialogIdempotent(rows: seq<Row>, forceRingControl: bool, added: Row, again: Row)
    requires IsAddedNotificationRow(added)
    ensures var once := DefaultStreamApplied(WithNotificationRow(rows, added), forceRingControl);
            DefaultStreamApplied(WithNotificationRow(once, again), forceRingControl) == once
    ensures var once := DefaultStreamApplied(rows, forceRingControl);
            DefaultStreamApplied(once, forceRingControl) == once
  {
    DefaultStreamLastWins(rows, forceRingControl, forceRingControl);
    var prepared := WithNotificationRow(rows, added);
    var once := DefaultStreamApplied(prepared, forceRingControl);
    NotificationRowAppended(rows, added);
    DefaultStreamKeepsStreams(prepared, forceRingControl);
    assert HasStream(once, StreamNotification);
    DefaultStreamLastWins(prepared, forceRingControl, forceRingControl);
  }

  // ---------------------------------------------------------------------
  // the updateVolumeRowSliderH after-hook, on one row

  /** The row after the slider hook: only when volumes are not linked and the
      row carries the tag, its slider takes the ringer slider's state and its
      icon follows the slider; in every other case the row is unchanged. */
  function SliderUpdated(row: Row, volumesLinked: bool, ringerEnabled: bool): (r: Row)
    ensures r.stream == row.stream && r.defaultStream == row.defaultStream && r.gbNotifSlider == row.gbNotifSlider
    ensures !volumesLinked && row.gbNotifSlider ==> r.sliderEnabled == ringerEnabled && r.iconEnabled == r.sliderEnabled
    ensures volumesLinked || !row.gbNotifSlider ==> r == row
  {
    if !volumesLinked && row.gbNotifSlider then
      var withSlider := row.(sliderEnabled := ringerEnabled);
      withSlider.(iconEnabled := withSlider.sliderEnabled)
    else row
  }

  // ---------------------------------------------------------------------
  // the module state and its hooks

  /** The three module-level flags together with the host panel's row list
      `mRows`, which the hooks read and update in place. */
  class Panel {
    var volForceRingControl: bool
    var volumesLinked: bool
    var volumePanelExpanded: bool
    var rows: seq<Row>

    ghost predicate Valid()
      reads this
    {
      TagsConsistent(rows)
    }

    /** init: the flags are seeded from the stored preferences, each with its
        own default (ring control not forced, volumes linked, panel not
        expanded); `hostRows` is the host's own list, which carries no tag of
        this module. */
    constructor (prefs: Prefs, hostRows: seq<Row>)
      requires forall i :: 0 <= i < |hostRows| ==> !hostRows[i].gbNotifSlider
      ensures Valid()
      ensures volForceRingControl == PrefBoolean(prefs.volForceRingControl, false)
      ensures volumesLinked == PrefBoolean(prefs.linkVolumes, true)
      ensures volumePanelExpanded == PrefBoolean(prefs.volExpanded, false)
      ensures prefs == Prefs(None, None, None) ==> !volForceRingControl && volumesLinked && !volumePanelExpanded
      ensures rows == hostRows
    {
      volForceRingControl := PrefBoolean(prefs.volForceRingControl, false);
      volumesLinked := PrefBoolean(prefs.linkVolumes, true);
      volumePanelExpanded := PrefBoolean(prefs.volExpanded, false);
      rows := hostRows;
    }

    /** updateDefaultStream: sets the default-stream field of every MUSIC and
        RING row from the force-ring flag. */
    method UpdateDefaultStream()
      requires Valid()
      modifies this
      ensures Valid()
      ensures rows == DefaultStreamApplied(old(rows), volForceRingControl)
      ensures volForceRingControl == old(volForceRingControl) && volumesLinked == old(volumesLinked)
      ensures volumePanelExpanded == old(volumePanelExpanded)
    {
      var i := 0;
      while i < |rows|
        invariant 0 <= i <= |rows| == |old(rows)|
        invariant forall j :: 0 <= j < i ==> rows[j] == WithDefaultStream(old(rows)[j], volForceRingControl)
        invariant forall j :: i <= j < |rows| ==> rows[j] == old(rows)[j]
        invariant volForceRingControl == old(volForceRingControl) && volumesLinked == old(volumesLinked)
        invariant volumePanelExpanded == old(volumePanelExpanded)
      {
        var row := rows[i];
        if row.stream == StreamMusic {
          rows := rows[i := row.(defaultStream := !volForceRingControl)];
        } else if row.stream == StreamRing {
          rows := rows[i := row.(defaultStream := volForceRingControl)];
        }
        i := i + 1;
      }
      DefaultStreamKeepsStreams(old(rows), volForceRingControl);
    }

    /** prepareNotificationRow: when no NOTIFICATION row exists, the host's
        addRow appends `added` and the last row is tagged. */
    method PrepareNotificationRow(added: Row)
      requires Valid() && IsAddedNotificationRow(added)
      modifies this
      ensures Valid()
      ensures rows == WithNotificationRow(old(rows), added)
      ensures volForceRingControl == old(volForceRingControl) && volumesLinked == old(volumesLinked)
      ensures volumePanelExpanded == old(volumePanelExpanded)
    {
      var i := 0;
      while i < |rows|
        invariant 0 <= i <= |rows|
        invariant forall j :: 0 <= j < i ==> rows[j].stream != StreamNotification
      {
        if rows[i].stream == StreamNotification {
          return;
        }
        i := i + 1;
      }
      // the host's addRow appends its new row at the end
      rows := rows + [added];
      rows := rows[|rows| - 1 := rows[|rows| - 1].(gbNotifSlider := true)];
      NotificationRowKeepsTags(old(rows), added);
    }

    /** isRingerSliderEnabled: a read-only scan for the first RING row. */
    method IsRingerSliderEnabled() returns (enabled: bool)
      ensures enabled == RingerSliderEnabled(rows)
    {
      var i := 0;
      while i < |rows|
        invariant 0 <= i <= |rows|
        invariant forall j :: 0 <= j < i ==> rows[j].stream != StreamRing
      {
        if rows[i].stream == StreamRing {
          assert IsFirstOf(rows, StreamRing, i);
          return rows[i].sliderEnabled;
        }
        i := i + 1;
      }
      return true;
    }

    /** The after-hook of initDialog: the notification row is prepared
        (except on Samsung ROMs), then the default stream is updated. */
    method InitDialog(samsungRom: bool, added: Row)
      requires Valid() && IsAddedNotificationRow(added)
      modifies this
      ensures Valid()
      ensures rows == DefaultStreamApplied(if samsungRom then old(rows) else WithNotificationRow(old(rows), added),
                                           volForceRingControl)
      ensures volForceRingControl == old(volForceRingControl) && volumesLinked == old(volumesLinked)
      ensures volumePanelExpanded == old(volumePanelExpanded)
    {
      if !samsungRom {
        PrepareNotificationRow(added);
      }
      UpdateDefaultStream();
    }

    /** The first rule of the visibility hook: with the panel expanded, the
        primary streams and, when volumes are not linked, the notification
        stream are shown whatever the host computed. */
    predicate ForcesVisible(stream: StreamType)
      reads this
      // the expanded flag guards every alternative, the notification one included
      ensures ForcesVisible(stream) ==> volumePanelExpanded
      ensures ForcesVisible(stream) ==> stream == StreamMusic || stream == StreamRing || stream == StreamAlarm ||
                                        stream == StreamVoiceCall || stream == StreamNotification
      ensures (volumePanelExpanded && (stream == StreamMusic || stream == StreamRing || stream == StreamAlarm ||
                                       stream == StreamVoiceCall)) ==> ForcesVisible(stream)
      ensures stream == StreamNotification ==> (ForcesVisible(stream) <==> volumePanelExpanded && !volumesLinked)
    {
      volumePanelExpanded && (stream == StreamMusic || stream == StreamRing ||
                              (stream == StreamNotification && !volumesLinked) ||
                              stream == StreamAlarm || stream == StreamVoiceCall)
    }

    /** The after-hook of shouldBeVisibleH, given the result `prior` that the
        host computed for `row`. */
    function ShouldBeVisibleH(row: Row, prior: bool): (r: bool)
      reads this
      // a forced row is shown whatever the host computed
      ensures ForcesVisible(row.stream) ==> r
      // otherwise the tagged row is narrowed by the link flag and every other row keeps the host's result
      ensures !ForcesVisible(row.stream) ==> r == (if row.gbNotifSlider then prior && !volumesLinked else prior)
      // in particular, with the panel not expanded nothing is forced
      ensures !volumePanelExpanded ==> r == (if row.gbNotifSlider then prior && !volumesLinked else prior)
      // an untagged row's result changes only to true, and only when expanded
      ensures !row.gbNotifSlider && r != prior ==> r && volumePanelExpanded
      // linked volumes hide the tagged notification row, even when expanded
      ensures volumesLinked && row.gbNotifSlider && row.stream == StreamNotification ==> !r
    {
      if ForcesVisible(row.stream) then
        true
      else if row.gbNotifSlider then
        prior && !volumesLinked
      else
        prior
    }

    /** The after-hook of updateVolumeRowSliderH on the row at index `k`. */
    method UpdateVolumeRowSliderH(k: nat)
      requires Valid() && k < |rows|
      modifies this
      ensures Valid()
      ensures rows == old(rows)[k := SliderUpdated(old(rows)[k], volumesLinked, RingerSliderEnabled(old(rows)))]
      ensures volForceRingControl == old(volForceRingControl) && volumesLinked == old(volumesLinked)
      ensures volumePanelExpanded == old(volumePanelExpanded)
    {
      if !volumesLinked && rows[k].gbNotifSlider {
        var enabled := IsRingerSliderEnabled();
        var row := rows[k].(sliderEnabled := enabled);
        rows := rows[k := row.(iconEnabled := row.sliderEnabled)];
      }
    }

    /** onReceive: acts only on the media-control action; each flag changes
        only when its extra is present, and a new force-ring value is applied
        to the rows at once. */
    method OnReceive(intent: Intent)
      requires Valid()
      modifies this
      ensures Valid()
      ensures !intent.action.ActionPrefMediaControlChanged? ==>
                volForceRingControl == old(volForceRingControl) && volumesLinked == old(volumesLinked) &&
                volumePanelExpanded == old(volumePanelExpanded) && rows == old(rows)
      ensures intent.action.ActionPrefMediaControlChanged? ==>
                volForceRingControl == (if HasExtra(intent.volForceRingControl)
                                        then BooleanExtra(intent.volForceRingControl, false)
                                        else old(volForceRingControl)) &&
                volumesLinked == (if HasExtra(intent.volLinked)
                                  then BooleanExtra(intent.volLinked, true)
                                  else old(volumesLinked)) &&
                volumePanelExpanded == (if HasExtra(intent.volExpanded)
                                        then BooleanExtra(intent.volExpanded, false)
                                        else old(volumePanelExpanded)) &&
                rows == (if HasExtra(intent.volForceRingControl)
                         then DefaultStreamApplied(old(rows), volForceRingControl)
                         else old(rows))
    {
      if intent.action.ActionPrefMediaControlChanged? {
        if HasExtra(intent.volForceRingControl) {
          volForceRingControl := BooleanExtra(intent.volForceRingControl, false);
          UpdateDefaultStream();
        }
        if HasExtra(intent.volLinked) {
          volumesLinked := BooleanExtra(intent.volLinked, true);
        }
        if HasExtra(intent.volExpanded) {
          volumePanelExpanded := BooleanExtra(intent.volExpanded, false);
        }
      }
    }
  }
}
