# GravityBox volume-panel policy, modelled in Dafny

GravityBox's `ModVolumePanel` patches the SystemUI volume dialog. Once the
hooking plumbing is stripped away, what remains is a small policy over the
dialog's list of volume rows (`mRows`):

- three module-level flags: ring control forced, volumes linked, panel expanded;
- `updateDefaultStream`, which marks MUSIC rows (or, when ring control is
  forced, RING rows) as the default stream;
- `prepareNotificationRow`, which adds one tagged ("gbNotifSlider")
  NOTIFICATION row when the host has none;
- the after-hooks of `shouldBeVisibleH` (row visibility) and
  `updateVolumeRowSliderH` (slider and icon enablement of the tagged row),
  and `isRingerSliderEnabled`, which reads the RING row's slider state;
- the preference-change receiver and the start-up seeding of the flags.

`mod_volume_panel.dfy` holds one module, `ModVolumePanel`. A row is the value
`Row(stream, defaultStream, sliderEnabled, iconEnabled, gbNotifSlider)`.
Stream types are the integer codes of `android.media.AudioManager`. The class
`Panel` owns the three flags and the row list. Its methods update them in
place, as the hooks do. Each method is proved against a pure function of the
old state:

- `DefaultStreamApplied` for `updateDefaultStream`;
- `WithNotificationRow` for `prepareNotificationRow`;
- `RingerSliderEnabled` for `isRingerSliderEnabled`;
- `SliderUpdated` for the slider hook.

Lemmas then state what the source relies on about those functions: the
per-row outcome, idempotence, and the tag invariant (`Panel.Valid`: only a
NOTIFICATION row is tagged, and at most one row is). The visibility hook reads
no rows, so it is a function of the flags, the row and the host's own result.

The expanded flag guards every one of the forced-visible cases, the unlinked
NOTIFICATION case included (ModVolumePanel.java:105-109). The visibility hook
has no fail-open default of its own: it either forces true, narrows the
host's result for the tagged row, or keeps the host's result.

## Model

| member | source | states |
|---|---|---|
| ModVolumePanel.RingerSliderEnabled | GravityBox/src/main/java/com/ceco/pie/gravitybox/ModVolumePanel.java:161-174 | the result is the slider state of the first RING row in list order, and true when there is no RING row |
| ModVolumePanel.Panel.IsRingerSliderEnabled | GravityBox/src/main/java/com/ceco/pie/gravitybox/ModVolumePanel.java:161-174 | the scan over the rows returns exactly `RingerSliderEnabled` of the current rows and changes nothing |
| ModVolumePanel.WithDefaultStream | GravityBox/src/main/java/com/ceco/pie/gravitybox/ModVolumePanel.java:180-185 | one pass of the loop: only the row's defaultStream may change; a MUSIC row gets !force, a RING row gets force, any other row is returned unchanged |
| ModVolumePanel.DefaultStreamApplied | GravityBox/src/main/java/com/ceco/pie/gravitybox/ModVolumePanel.java:176-190 | every MUSIC row ends with defaultStream == !force and every RING row with defaultStream == force, nothing else in them changed; all other rows, the count and the order are unchanged |
| ModVolumePanel.DefaultStreamExclusive | GravityBox/src/main/java/com/ceco/pie/gravitybox/ModVolumePanel.java:181-185 | after the update a MUSIC row and a RING row never agree on being the default stream |
| ModVolumePanel.DefaultStreamKeepsStreams | GravityBox/src/main/java/com/ceco/pie/gravitybox/ModVolumePanel.java:179-186 | the update changes no row's stream or tag, so it keeps the tag invariant and the set of streams present |
| ModVolumePanel.DefaultStreamLastWins | GravityBox/src/main/java/com/ceco/pie/gravitybox/ModVolumePanel.java:52-55 | two updates in a row leave the rows as the second one alone would: only the last force-ring value counts |
| ModVolumePanel.Panel.UpdateDefaultStream | GravityBox/src/main/java/com/ceco/pie/gravitybox/ModVolumePanel.java:176-190 | the loop leaves the rows equal to `DefaultStreamApplied` of the old rows and the current flag; the flags are unchanged and the tag invariant holds |
| ModVolumePanel.WithNotificationRow | GravityBox/src/main/java/com/ceco/pie/gravitybox/ModVolumePanel.java:143-154 | with a NOTIFICATION row present the list is returned as it was; otherwise the prefix is kept and exactly one row is appended at the end: the host's new row with the tag set |
| ModVolumePanel.NotificationRowAppended | GravityBox/src/main/java/com/ceco/pie/gravitybox/ModVolumePanel.java:140-154 | with a NOTIFICATION row present the list is left exactly as it was; otherwise exactly one row is appended at the end, with stream NOTIFICATION and the tag set; afterwards a NOTIFICATION row exists |
| ModVolumePanel.NotificationRowIdempotent | GravityBox/src/main/java/com/ceco/pie/gravitybox/ModVolumePanel.java:143-147 | preparing the notification row twice equals preparing it once |
| ModVolumePanel.NotificationRowKeepsTags | GravityBox/src/main/java/com/ceco/pie/gravitybox/ModVolumePanel.java:148-154 | the append keeps the tag invariant, and an appended row is then the only tagged row |
| ModVolumePanel.Panel.PrepareNotificationRow | GravityBox/src/main/java/com/ceco/pie/gravitybox/ModVolumePanel.java:140-159 | the scan and append leave the rows equal to `WithNotificationRow` of the old rows; the flags are unchanged and the tag invariant holds |
| ModVolumePanel.Panel.InitDialog | GravityBox/src/main/java/com/ceco/pie/gravitybox/ModVolumePanel.java:91-99 | the rows become the default-stream update of the prepared rows, or of the old rows on a Samsung ROM; the flags are unchanged |
| ModVolumePanel.InitDialogIdempotent | GravityBox/src/main/java/com/ceco/pie/gravitybox/ModVolumePanel.java:91-99 | a second dialog init with the same flag leaves the rows as the first one left them, both on a Samsung ROM (no notification row prepared) and on any other |
| ModVolumePanel.Panel.ForcesVisible | GravityBox/src/main/java/com/ceco/pie/gravitybox/ModVolumePanel.java:105-109 | the first rule applies only when the panel is expanded and only to MUSIC, RING, ALARM, VOICE_CALL and NOTIFICATION rows; with the panel expanded it covers every primary stream, and a NOTIFICATION row exactly when volumes are not linked |
| ModVolumePanel.Panel.ShouldBeVisibleH | GravityBox/src/main/java/com/ceco/pie/gravitybox/ModVolumePanel.java:101-118 | when expanded, MUSIC, RING, ALARM, VOICE_CALL rows and, when not linked, NOTIFICATION rows are visible whatever the host computed; in every other case the tagged row gets prior && !linked and every untagged row keeps the host's result, so when not expanded nothing is forced; an untagged row's result only changes to true and only when expanded; when linked the tagged NOTIFICATION row is never visible, even when expanded |
| ModVolumePanel.SliderUpdated | GravityBox/src/main/java/com/ceco/pie/gravitybox/ModVolumePanel.java:126-132 | only when volumes are not linked and the row is tagged does its slider take the ringer state and its icon follow the slider; otherwise the row is unchanged; stream, default flag and tag never change |
| ModVolumePanel.Panel.UpdateVolumeRowSliderH | GravityBox/src/main/java/com/ceco/pie/gravitybox/ModVolumePanel.java:122-134 | only the hooked row changes, to `SliderUpdated` of it with the ringer state of the rows before the hook; the flags are unchanged |
| ModVolumePanel.Panel.OnReceive | GravityBox/src/main/java/com/ceco/pie/gravitybox/ModVolumePanel.java:50-66 | another action changes nothing; the media-control action changes each flag only when its extra is present (a non-boolean extra reads as false, true, false respectively); a present force-ring extra is applied to the rows at once; the other two flags touch no rows |
| ModVolumePanel.Panel.constructor | GravityBox/src/main/java/com/ceco/pie/gravitybox/ModVolumePanel.java:73-76 | the flags are seeded from the stored preferences with defaults forceRing=false, linked=true, expanded=false; the rows are the host's untagged rows |

## Left out

- Xposed hooking and reflection (`findClass`, `hookAllConstructors`, `findAndHookMethod`, field access by name, additional instance fields): the hooks are the class's methods and the tag is a field of `Row`.
- The constructor hook (ModVolumePanel.java:78-89): it only stores the host panel and registers the receiver; the model has one `Panel` whose `OnReceive` may be called at any time.
- The host's `addRow`: its resource identifiers and flags are opaque host data. The row it builds is the parameter `added`. It is assumed to carry the NOTIFICATION stream and to be appended at the end of the list.
- Rows are values in a sequence, not shared host objects: aliasing between the list and other holders of a row is not modelled. The slider hook names its row by its index in the list, since the host always passes one of its own rows.
- `Utils.isSamsungRom()` and the class-name selection: the Samsung case is the boolean parameter of `InitDialog`.
- The action string constant and the preference keys: GravityBoxSettings is not part of this model. The action is either the media-control action or another one.
- Error paths: the catch-all handlers, a missing host panel, a failed `findClass` and a stored preference of the wrong type (which aborts `init`) are not modelled. The model assumes the hooks run on an initialised panel. The fail-open default of `isRingerSliderEnabled` is kept as its result when no RING row exists.
- Logging and the DEBUG branches, including the DEBUG-only log message on line 63 that prints the linked flag where it announces the expanded one.
- Concurrency: everything runs on the host UI thread.
- The host's own computation of visibility and slider state: the hooks receive its result as input.
