/**
 * The process-wide table of active streaming tasks. Only registration and
 * removal are modelled; each stream's cancellation answers are inputs of
 * the stream itself.
 */
module Registry {

  datatype Event = Registered(id: string) | Unregistered(id: string)

  class TaskRegistry {
    /** The ids of the tasks currently registered. */
    var active: set<string>
    /** Every registration and removal, oldest first. */
    var events: seq<Event>

    constructor ()
      ensures active == {} && events == []
    {
      active := {};
      events := [];
    }

    /** `register_active_task`. */
    method Register(id: string)
      modifies this
      ensures active == old(active) + {id}
      ensures events == old(events) + [Registered(id)]
    {
      active := active + {id};
      events := events + [Registered(id)];
    }

    /** `unregister_active_task`: removing an id that is not registered leaves the active set as it was, though the removal is still logged. */
    method Unregister(id: string)
      modifies this
      ensures active == old(active) - {id}
      ensures events == old(events) + [Unregistered(id)]
    {
      active := active - {id};
      events := events + [Unregistered(id)];
    }
  }
}
