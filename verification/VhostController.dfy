/** VhostController's callbacks on its static counter, the configuration and the notification channel. */
module VhostController {
  import opened Common
  import DeviceConfig
  import CM = ConfigManager
  import PC = PortController
  import opened VhostModel

  class VhostController {
    const config: CM.ConfigManager
    var portCntr: int
    var wire: seq<PC.Note>    // the socket to the port controller, whole messages in order

    ghost function View(): Vhost
      reads this, config
    {
      Vhost(config.View(), portCntr, wire)
    }

    constructor (config: CM.ConfigManager)
      requires config.Valid() && config.View() == DeviceConfig.EMPTY
      ensures this.config == config && View() == NEW_VHOST
    {
      this.config := config;
      portCntr, wire := 0, [];
    }

    method NotifyPortController(note: PC.Note)
      modifies this`wire
      ensures wire == old(wire) + [note]
    {
      wire := wire + [note];
    }

    method OnNewDevice(vid: int, vringCount: nat)
      requires config.Valid() && vringCount / 2 <= MAX_QUEUE_PAIRS
      modifies this, config
      ensures config.Valid() && View() == NewDevice(old(View()), vid, vringCount)
    {
      config.InitVhostDevice(portCntr, vid, vringCount / 2);
      config.SetQueueState(vid, 0, true);
      config.SetQueueState(vid, 1, true);
      if vringCount == 2 {
        NotifyPortController(PC.Up(portCntr, vid));
      }
      portCntr := portCntr + 1;
    }

    method OnDestroyDevice(vid: int)
      requires config.Valid()
      modifies this
      ensures config.Valid() && View() == DestroyDevice(old(View()), vid)
    {
      var pid := config.GetPidByVid(vid);
      NotifyPortController(PC.Down(pid, vid));
      portCntr := portCntr - 1;
    }

    method OnVringStateChanged(vid: int, queueId: nat, enable: int)
      requires config.Valid()
      modifies this, config
      ensures config.Valid() && View() == VringState(old(View()), vid, queueId, enable != 0)
    {
      config.SetQueueState(vid, queueId, enable != 0);
      var ready := config.IsPortReady(vid);
      if ready {
        var pid := config.GetPidByVid(vid);
        NotifyPortController(PC.Up(pid, vid));
      }
    }
  }
}
