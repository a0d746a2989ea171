/**
 The logger object. Each method is one critical section or one thread-local step of the source, and takes the
 double buffer of LogStream through exactly that step, so the stream theorems hold of every interleaving of these calls.
 */
module Logging {
  import opened LogStream

  class Logger {
    var level: Level
    var maxFileSize: nat
    var currentFileSize: nat
    var initialized: bool
    var running: bool
    var activeBuffer: string
    var fileOpen: bool
    // What the log file, its rotated copy and standard output hold.
    var file: string
    var backup: string
    var stdout: string
    ghost var flusher: Flusher
    ghost var drained: bool
    ghost var history: History

    ghost function View(): Log
      reads this
    {
      Log(level, maxFileSize, initialized, running, drained, activeBuffer, flusher,
          Files(fileOpen, file, backup, currentFileSize), stdout, history)
    }

    constructor ()
      ensures View() == FRESH
    {
      level, maxFileSize, currentFileSize, initialized, running := 3, 100 * MEGABYTE, 0, false, false;
      activeBuffer, fileOpen, file, backup, stdout := "", false, "", "", "";
      flusher, drained, history := NotStarted, false, History([], 0, 0, 0, 0, 0, false, 0);
    }

    // opens is whether the file system lets the log file be opened.
    method Initialize(filename: string, minLevel: Level, megabytes: nat, opens: bool)
      requires Enabled(View(), Init(minLevel, filename != "" && opens, megabytes))
      modifies this
      ensures View() == Next(old(View()), Init(minLevel, filename != "" && opens, megabytes))
    {
      var again := initialized;
      initialized := true;
      if again {
        return;
      }
      level := minLevel;
      maxFileSize := megabytes * MEGABYTE;
      if filename != "" && opens {
        file, fileOpen := "", true;
        currentFileSize := |file|;
      }
      running := true;
      flusher := AtLoop;
    }

    method SetLogLevel(minLevel: Level)
      requires Enabled(View(), SetLevel(minLevel))
      modifies this`level
      ensures View() == Next(old(View()), SetLevel(minLevel))
    {
      level := minLevel;
    }

    method LogMessage(messageLevel: Level, message: string)
      requires Enabled(View(), Append(messageLevel, message))
      modifies this`activeBuffer, this`history
      ensures View() == Next(old(View()), Append(messageLevel, message))
    {
      if messageLevel <= level {
        activeBuffer := activeBuffer + LevelName(messageLevel) + message + "\n";
        history := history.(accepted := history.accepted + [Line(messageLevel, message)]);
        assert activeBuffer == old(activeBuffer) + Line(messageLevel, message);
      }
    }

    // The guard of the flush loop.
    method KeepsRunning() returns (again: bool)
      requires Enabled(View(), Check)
      modifies this`flusher
      ensures View() == Next(old(View()), Check)
      ensures again == running
    {
      again := running;
      flusher := if again then Waiting else Done;
    }

    // The flush loop's critical section.
    method TakeBuffer() returns (toWrite: string)
      requires Enabled(View(), Swap)
      modifies this`activeBuffer, this`flusher, this`history
      ensures View() == Next(old(View()), Swap)
      ensures flusher == Holding(toWrite)
    {
      toWrite := "";
      toWrite, activeBuffer := activeBuffer, toWrite;
      flusher := Holding(toWrite);
      history := history.(swapped := |history.accepted|);
    }

    method RotateLogs()
      requires fileOpen
      modifies this`fileOpen, this`file, this`backup, this`currentFileSize
      ensures Files(fileOpen, file, backup, currentFileSize)
              == Rotated(old(Files(fileOpen, file, backup, currentFileSize)))
    {
      if fileOpen {
        fileOpen := false;
      }
      backup := file;
      file, fileOpen := "", true;
      currentFileSize := 0;
    }

    method WriteBatch(toWrite: string)
      requires flusher == Holding(toWrite) && !drained
      modifies this`fileOpen, this`file, this`backup, this`currentFileSize, this`stdout, this`flusher, this`history
      ensures View() == Next(old(View()), Write)
    {
      ghost var before := View();
      if toWrite != "" {
        if fileOpen {
          if currentFileSize + |toWrite| > maxFileSize {
            RotateLogs();
          }
          file := file + toWrite;
          currentFileSize := currentFileSize + |toWrite|;
        }
        stdout := stdout + toWrite;
      }
      flusher, history := AfterWrite(before).flusher, AfterWrite(before).log;
    }

    /** One pass of the flush loop that no log call interrupts: everything accepted so far reaches standard output. */
    method FlushPass() returns (again: bool)
      requires Enabled(View(), Check) && Inv(View())
      modifies this
      ensures again == old(running) && Inv(View())
      ensures history.accepted == old(history.accepted) && running == old(running)
      ensures again ==> activeBuffer == "" && stdout == Join(history.accepted) && flusher == AtLoop
      ensures !again ==> View() == old(View()).(flusher := Done)
    {
      StepKeepsInv(View(), Check);
      again := KeepsRunning();
      if again {
        StepKeepsInv(View(), Swap);
        var toWrite := TakeBuffer();
        StepKeepsInv(View(), Write);
        WriteBatch(toWrite);
        assert history.accepted[..history.flushed] == history.accepted;
      }
    }

    // The destructor before it joins the flush thread.
    method StopRunning()
      requires Enabled(View(), Stop)
      modifies this`running
      ensures View() == Next(old(View()), Stop)
    {
      running := false;
    }

    // The destructor after the join.
    method DrainBuffer()
      requires Enabled(View(), Drain)
      modifies this`file, this`stdout, this`drained
      ensures View() == Next(old(View()), Drain)
    {
      if activeBuffer != "" {
        if fileOpen {
          file := file + activeBuffer;
        }
        stdout := stdout + activeBuffer;
      }
      drained := true;
    }
  }
}
