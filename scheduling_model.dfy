/** The records of course scheduling: online platforms, time slots,
    conflicts, schedules and the data the create dialog submits. Instants are
    milliseconds since the epoch. */
module SchedulingModel {
  import opened Wrappers
  import opened Lookup

  datatype ScheduleStatus = Draft | Confirmed | Cancelled | Completed

  datatype PlatformType = Zoom | Teams | GoogleMeet | Custom

  datatype OnlinePlatform = OnlinePlatform(
    id: string,
    name: string,
    platformType: PlatformType,
    maxCapacity: int,
    isAvailable: bool,
    features: seq<string>)

  datatype TimeSlot = TimeSlot(id: string, startTime: int, endTime: int, dayOfWeek: int)

  datatype ConflictKind = InstructorConflict | PlatformConflict | TimeConflict

  datatype ScheduleConflict = ScheduleConflict(kind: ConflictKind, conflictingItem: string, conflictingSchedule: string)

  datatype CourseSchedule = CourseSchedule(
    id: string,
    courseId: string,
    courseTitle: string,
    instructorId: string,
    instructorName: string,
    platformId: string,
    platformName: string,
    platformType: PlatformType,
    meetingLink: string,
    meetingId: Option<string>,
    meetingPassword: Option<string>,
    timeSlots: seq<TimeSlot>,
    startDate: int,
    endDate: int,
    status: ScheduleStatus,
    conflicts: seq<ScheduleConflict>,
    studentCount: int,
    maxCapacity: int,
    recordingEnabled: bool,
    createdAt: int,
    updatedAt: int)

  /** The dialog's form values (`ScheduleFormData`); `status` is draft or
      confirmed only. */
  datatype ScheduleFormData = ScheduleFormData(
    courseId: string,
    courseTitle: string,
    instructorId: string,
    instructorName: string,
    platformId: string,
    platformName: string,
    startDate: int,
    endDate: int,
    startTime: string,
    endTime: string,
    dayOfWeek: seq<int>,
    maxCapacity: int,
    confirmed: bool)

  /** `mockOnlinePlatforms`. */
  const Platforms: seq<OnlinePlatform> := [
    OnlinePlatform("platform-1", "Zoom Pro", Zoom, 100, true, ["recording", "breakout_rooms", "screen_share", "chat", "polling"]),
    OnlinePlatform("platform-2", "Microsoft Teams", Teams, 300, true, ["recording", "breakout_rooms", "screen_share", "chat", "whiteboard"]),
    OnlinePlatform("platform-3", "Google Meet", GoogleMeet, 100, true, ["recording", "screen_share", "chat"]),
    OnlinePlatform("platform-4", "커스텀 플랫폼", Custom, 50, true, ["recording", "screen_share", "chat"])]

  /** `platforms.find((p) => p.id === id)`. */
  function FindPlatform(platforms: seq<OnlinePlatform>, id: string): (r: Option<OnlinePlatform>)
    ensures r.Some? ==> r.value in platforms && r.value.id == id
    ensures r.None? <==> forall k :: 0 <= k < |platforms| ==> platforms[k].id != id
  {
    Find(platforms, (p: OnlinePlatform) => p.id == id)
  }
}
