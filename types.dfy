/**
 * The shapes the plant-reminder store works on: the user record, a plant,
 * the stored entry pairing a plant with its notification handle, and the
 * platform collaborators (calendar, notification trigger) as values.
 */
module PlantTypes {

  datatype Option<T> = None | Some(value: T)

  /** Instants are whole milliseconds since the epoch, as `Date.getTime()` gives them. */
  type Time = int

  /** An opaque notification handle; here, the position of its request in the scheduler's log. */
  type Handle = nat

  /** The singleton user record: display name and picture reference. */
  datatype User = User(name: string, picture: string)

  /** How often a plant wants water: `times` per `repeatEvery` ("week" is the only rule acted on). */
  datatype Frequency = Frequency(times: int, repeatEvery: string)

  /** A plant as the catalog describes it, with its first reminder moment. */
  datatype Plant = Plant(
    id: string,
    name: string,
    about: string,
    waterTips: string,
    photo: string,
    environments: seq<string>,
    frequency: Frequency,
    hour: string,
    dateTimeNotification: Time)

  /** One entry of the persisted collection: the plant and the handle of its reminder. */
  datatype StoredPlant = StoredPlant(data: Plant, notificationId: Handle)

  /**
   * The local calendar the host platform supplies: the day of the month of an
   * instant (`getDate`), the instant with its day of the month set to a given
   * number (`setDate`, which may roll over into other months), and the local
   * 24-hour "HH:mm" rendering of an instant (`format(t, 'HH:mm')`).
   * The model assumes nothing about these functions.
   */
  datatype Calendar = Calendar(
    dayOfMonth: Time -> int,
    setDate: (Time, int) -> Time,
    hourMinute: Time -> string)

  /** A notification trigger: a delay from the moment of scheduling and whether it repeats. */
  datatype Trigger = Trigger(delayMs: nat, repeats: bool)

  /** A request handed to the notification scheduler: the plant in its payload and the trigger. */
  datatype Request = Request(plant: Plant, trigger: Trigger)

  /** Why a store operation failed. */
  datatype StoreError = UnknownPlant(id: string)

  /** The outcome of an operation that returns nothing on success. */
  datatype Outcome = Done | Failed(error: StoreError)
}
